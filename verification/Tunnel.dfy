/** Two engines over a network that may lose, repeat, delay and reorder packets: every lock-held region of a
    handler is one step, and the steps of both engines interleave freely. */
module Tunnel {
  import opened Words
  import opened Crypto
  import opened EngineTables
  import opened Replay
  import opened Sessions
  import opened NodeEngine
  import Noise

  /** What a handler holds between two of its regions. */
  datatype Flight =
    | Initiating(hs: Noise.State, m1: Noise.Msg1)
    | Responding(remote: Term, keys: (Term, Term), m2: Noise.Msg2, initiatorID: u32)
    | Completing(p: Pending<Noise.State>, resp: RespPacket)

  datatype Established = Established(receiverID: u32, ch: Channel)

  /** What a data handler holds after it checked and opened a packet, until it advances the window. */
  datatype Read = Read(id: u32, counter: u64, plain: Term, via: u32)

  /** via is the sender's own id of the session that sealed the packet. */
  datatype Packet = Init(init: InitPacket) | Resp(resp: RespPacket) | Data(data: DataPacket, via: u32)

  /** History: offers and answers made, the answer each of its own offers was completed with, ids rekeyed away,
      what was sealed under each counter, and the counters of the packets delivered on each session in order: those
      that advanced its window, each handed on by its handler right after. */
  datatype Offer = Offer(hs: Noise.State, m1: Noise.Msg1, ephemeral: nat)
  datatype Answer = Answer(r: Noise.State, keys: (Term, Term), m2: Noise.Msg2, initiatorID: u32, ephemeral: nat)

  datatype Node = Node(
    kp: nat,
    tables: Tables<(), Noise.State>,
    flights: map<u32, Flight>,
    readers: map<nat, Read>,
    channels: map<u32, Established>,
    offers: map<u32, Offer>,
    answers: map<u32, Answer>,
    rekeyed: set<u32>,
    sent: map<(u32, u64), seq<int>>,
    accepted: map<u32, seq<u64>>)

  function NewNode(kp: nat): Node {
    Node(kp, NoTables(), map[], map[], map[], map[], map[], {}, map[], map[])
  }

  // ---------------------------------------------------------------- steps of one engine

  datatype Event =
    | BeginInitiate(ephemeral: nat)
    | KeepPending(id: u32, now: int)
    | BeginRespond(init: InitPacket, ephemeral: nat)
    | FinishRespond(id: u32)
    | TakeOffer(resp: RespPacket)
    | FinishInitiate(id: u32)
    | Timeout(now: int)
    | RekeyThe(peer: Term)
    | Send(id: u32, packet: seq<int>)
    | CheckData(reader: nat, data: DataPacket, via: u32)
    | AdvanceData(reader: nat)

  /** A packet can be handled as long as it was once sent. A handler keeps using a session it looked up
      before a rekey, so any session that was ever in byID may still seal and open. */
  predicate CanStep(n: Node, inbox: set<Packet>, e: Event) {
    match e
    case BeginInitiate(_) => n.tables.idCounter + 1 < TWO32
    case KeepPending(id, _) => id in n.flights && n.flights[id].Initiating?
    case BeginRespond(init, _) => Init(init) in inbox && n.tables.idCounter + 1 < TWO32
    case FinishRespond(id) => id in n.flights && n.flights[id].Responding?
    case TakeOffer(resp) => Resp(resp) in inbox
    case FinishInitiate(id) => id in n.flights && n.flights[id].Completing?
    case Timeout(_) => true
    case RekeyThe(_) => true
    case Send(id, _) => id in n.channels && n.channels[id].ch.counter + 1 < TWO64
    case CheckData(reader, d, via) => reader !in n.readers && Data(d, via) in inbox && d.receiver in n.channels
    case AdvanceData(reader) => reader in n.readers
  }

  /** The engine afterwards, and what it puts on the wire. */
  function Act(n: Node, peer: nat, inbox: set<Packet>, e: Event): (Node, set<Packet>)
    requires CanStep(n, inbox, e) && Ordered(n)
  {
    match e
    case BeginInitiate(eph) => (Offered(n, peer, eph), {})
    case KeepPending(id, now) => PendingKept(n, peer, id, now)
    case BeginRespond(init, eph) => (Answering(n, init, eph), {})
    case FinishRespond(id) => AnswerKept(n, id)
    case TakeOffer(resp) => (OfferTaken(n, resp), {})
    case FinishInitiate(id) => (Completed(n, id), {})
    case Timeout(now) => (n.(tables := Step(n.tables, Expire(now))), {})
    case RekeyThe(key) => (Rekeyed(n, key), {})
    case Send(id, packet) => Sealing(n, id, packet)
    case CheckData(reader, d, via) => (Opened(n, reader, d, via), {})
    case AdvanceData(reader) => (Delivered(n, reader), {})
  }

  function Offered(n: Node, peer: nat, eph: nat): Node
    requires n.tables.idCounter + 1 < TWO32
  {
    var (hs, m1) := Noise.Write1(Noise.Initiator(n.kp, Public(peer), eph));
    Noise.Message1AcceptedIffAddressed(n.kp, peer, eph, peer, 0);
    var id := n.tables.idCounter + 1;
    n.(tables := Step(n.tables, DrawID),
       flights := n.flights[id := Initiating(hs, m1.value)],
       offers := n.offers[id := Offer(hs, m1.value, eph)])
  }

  function PendingKept(n: Node, peer: nat, id: u32, now: int): (Node, set<Packet>)
    requires id in n.flights && n.flights[id].Initiating? && id in n.tables.drafts
  {
    var f := n.flights[id];
    (n.(tables := Step(n.tables, InsertPending(Pending(Public(peer), f.hs, id, now))),
        flights := n.flights - {id}),
     {Init(InitPacket(id, f.m1))})
  }

  function Answering(n: Node, init: InitPacket, eph: nat): Node
    requires n.tables.idCounter + 1 < TWO32
  {
    var (s, ok) := Noise.Read1(Noise.Responder(n.kp, eph), init.m1);
    if !ok then n
    else
      var (r, m2) := Noise.Write2(s);
      var keys := Noise.TransportKeys(r).value;
      var id := n.tables.idCounter + 1;
      n.(tables := Step(n.tables, DrawID),
         flights := n.flights[id := Responding(r.remoteStatic, keys, m2.value, init.sender)],
         answers := n.answers[id := Answer(r, keys, m2.value, init.sender, eph)])
  }

  function AnswerKept(n: Node, id: u32): (Node, set<Packet>)
    requires id in n.flights && n.flights[id].Responding? && id in n.tables.drafts
  {
    var f := n.flights[id];
    (Kept(n, id, f.remote, f.initiatorID, f.keys), {Resp(RespPacket(id, f.initiatorID, f.m2))})
  }

  /** buildSession: the session enters both maps under the id. */
  function Kept(n: Node, id: u32, peer: Term, receiverID: u32, keys: (Term, Term)): Node
    requires id in n.tables.drafts
  {
    n.(tables := Step(n.tables, BuildSession(peer, PeerSession((), receiverID, id))),
       flights := n.flights - {id},
       channels := n.channels[id := Established(receiverID, NewChannel(keys.0, keys.1))],
       accepted := n.accepted[id := []])
  }

  function OfferTaken(n: Node, resp: RespPacket): Node {
    if resp.receiver !in n.tables.pending then n
    else
      n.(tables := Step(n.tables, TakePending(resp.receiver)),
         flights := n.flights[resp.receiver := Completing(n.tables.pending[resp.receiver], resp)])
  }

  function Completed(n: Node, id: u32): Node
    requires id in n.flights && n.flights[id].Completing? && id in n.tables.drafts
  {
    var f := n.flights[id];
    var (i, ok) := Noise.Read2(f.p.hs, f.resp.m2);
    if !ok then n.(tables := Step(n.tables, Abandon(id)), flights := n.flights - {id})
    else
      Kept(n, id, f.p.peer, f.resp.sender, Noise.TransportKeys(i).value)
  }

  function Rekeyed(n: Node, key: Term): Node {
    n.(tables := Step(n.tables, Rekey(key)),
       rekeyed := if key in n.tables.sessions then n.rekeyed + {n.tables.sessions[key].localID} else n.rekeyed)
  }

  function Sealing(n: Node, id: u32, packet: seq<int>): (Node, set<Packet>)
    requires id in n.channels
  {
    var est := n.channels[id];
    (n.(channels := n.channels[id := est.(ch := AfterSeal(est.ch))],
        sent := n.sent[(id, est.ch.counter) := packet]),
     {Data(DataPacket(est.receiverID, est.ch.counter, Ciphertext(est.ch.sendKey, est.ch.counter, packet)), id)})
  }

  /** The window is asked under its lock, then the packet is opened; the window does not move yet. */
  function Opened(n: Node, reader: nat, d: DataPacket, via: u32): Node
    requires d.receiver in n.channels
  {
    var plain := Unsealed(n.channels[d.receiver].ch, d.counter, d.box);
    if plain.Err? then n else n.(readers := n.readers[reader := Read(d.receiver, d.counter, plain.value, via)])
  }

  /** The window advances under its lock, and the packet is delivered. */
  function Delivered(n: Node, reader: nat): Node
    requires reader in n.readers && n.readers[reader].id in n.channels && n.readers[reader].id in n.accepted
  {
    var read := n.readers[reader];
    var est := n.channels[read.id];
    n.(readers := n.readers - {reader},
       channels := n.channels[read.id := est.(ch := est.ch.(window := Advanced(est.ch.window, read.counter)))],
       accepted := n.accepted[read.id := n.accepted[read.id] + [read.counter]])
  }

  /** What the steps need of a node to be defined at all. */
  ghost predicate Ordered(n: Node) {
    n.flights.Keys == n.tables.drafts && n.channels.Keys == n.accepted.Keys &&
    forall r | r in n.readers :: n.readers[r].id in n.channels
  }

  // ---------------------------------------------------------------- the invariant, seen from one side

  ghost predicate TablesInv(n: Node) {
    && Inv(n.tables) && Ordered(n)
    && n.tables.byID.Keys <= n.channels.Keys
    && (forall id | id in n.tables.byID :: n.tables.byID[id].receiverID == n.channels[id].receiverID)
    && (forall id | id in n.channels :: id in n.tables.byID || id in n.rekeyed)
    && n.channels.Keys !! n.tables.drafts !! n.tables.pending.Keys
    && (forall id | id in n.offers || id in n.answers || id in n.channels :: id <= n.tables.idCounter)
    && n.offers.Keys !! n.answers.Keys
  }

  /** Each offer is a first message to this peer. */
  ghost predicate OffersSound(kp: nat, offers: map<u32, Offer>, peer: nat) {
    forall id {:trigger SoundOffer(kp, offers, peer, id)} | id in offers :: SoundOffer(kp, offers, peer, id)
  }

  ghost predicate SoundOffer(kp: nat, offers: map<u32, Offer>, peer: nat, id: u32)
    requires id in offers
  {
    Noise.Sent1(offers[id].hs, kp, Public(peer), offers[id].ephemeral, offers[id].m1)
  }

  /** Each answer was made to an offer of the peer. */
  ghost predicate AnswersSound(kp: nat, answers: map<u32, Answer>, offers: map<u32, Offer>) {
    forall id {:trigger SoundAnswer(kp, answers, offers, id)} | id in answers :: SoundAnswer(kp, answers, offers, id)
  }

  ghost predicate SoundAnswer(kp: nat, answers: map<u32, Answer>, offers: map<u32, Offer>, id: u32)
    requires id in answers
  {
    var a := answers[id];
    a.initiatorID in offers && Noise.TransportKeys(a.r) == Ok(a.keys) &&
    Noise.Answered(a.r, kp, a.ephemeral, offers[a.initiatorID].m1, a.m2)
  }

  /** An offer lies with exactly the handler or table entry it started in. */
  ghost predicate FlightsInv(n: Node, peer: Node) {
    && (forall id | id in n.tables.pending ::
          id in n.offers && n.tables.pending[id].hs == n.offers[id].hs && n.tables.pending[id].peer == Public(peer.kp))
    && (forall id | id in n.flights ::
          match n.flights[id]
          case Initiating(hs, m1) => id in n.offers && hs == n.offers[id].hs && m1 == n.offers[id].m1
          case Responding(_, keys, m2, initiatorID) =>
            id in n.answers && keys == n.answers[id].keys && m2 == n.answers[id].m2 &&
            initiatorID == n.answers[id].initiatorID
          case Completing(p, resp) =>
            id in n.offers && p.hs == n.offers[id].hs && resp.receiver == id &&
            IsAnswer(peer.answers, peer.channels, resp))
  }

  /** The response is one that was written after its writer kept the session it announces. */
  ghost predicate IsAnswer(answers: map<u32, Answer>, channels: map<u32, Established>, resp: RespPacket) {
    resp.sender in answers && resp.sender in channels &&
    answers[resp.sender].initiatorID == resp.receiver && answers[resp.sender].m2 == resp.m2
  }

  /** The session with this id and the one it names at the other end name each other, and each sends under the
      key the other receives with. */
  ghost predicate Mirrored(channels: map<u32, Established>, id: u32, others: map<u32, Established>) {
    id in channels && channels[id].receiverID in others &&
    var mine, theirs := channels[id], others[channels[id].receiverID];
    theirs.receiverID == id &&
    mine.ch.sendKey == theirs.ch.recvKey && mine.ch.recvKey == theirs.ch.sendKey
  }

  ghost predicate ChannelsSound(channels: map<u32, Established>, offers: map<u32, Offer>,
                                answers: map<u32, Answer>, peer: Node) {
    forall id | id in channels ::
      && (id in answers ==>
            channels[id].receiverID == answers[id].initiatorID &&
            answers[id].keys == (channels[id].ch.sendKey, channels[id].ch.recvKey))
      && (id in offers ==>
            channels[id].receiverID in peer.answers && Mirrored(channels, id, peer.channels))
      && (id in offers || id in answers)
  }

  ghost predicate ChannelsInv(n: Node, peer: Node) {
    ChannelsSound(n.channels, n.offers, n.answers, peer)
  }

  /** Everything on the wire to a node was put there by its peer. */
  ghost predicate InboxInv(inbox: set<Packet>, peer: Node) {
    forall p | p in inbox ::
      match p
      case Init(init) => init.sender in peer.offers && init.m1 == peer.offers[init.sender].m1
      case Resp(resp) => IsAnswer(peer.answers, peer.channels, resp)
      case Data(d, via) => IsSealed(peer.channels, peer.sent, d, via)
  }

  ghost predicate IsSealed(channels: map<u32, Established>, sent: map<(u32, u64), seq<int>>, d: DataPacket, via: u32) {
    via in channels && d.receiver == channels[via].receiverID && (via, d.counter) in sent &&
    d.box == Ciphertext(channels[via].ch.sendKey, d.counter, sent[(via, d.counter)])
  }

  /** What a data handler holds is what the peer sealed on a session that names this one. */
  ghost predicate ReadSound(read: Read, channels: map<u32, Established>, sent: map<(u32, u64), seq<int>>) {
    read.via in channels && channels[read.via].receiverID == read.id && (read.via, read.counter) in sent &&
    read.plain == Payload(sent[(read.via, read.counter)])
  }

  ghost predicate ReadsInv(n: Node, peer: Node) {
    forall r | r in n.readers :: ReadSound(n.readers[r], peer.channels, peer.sent)
  }

  /** Exactly the counters below a session's counter have sealed a packet; its window is the run of accepted ones. */
  ghost predicate CountersSound(channels: map<u32, Established>, sent: map<(u32, u64), seq<int>>,
                                accepted: map<u32, seq<u64>>) {
    && channels.Keys == accepted.Keys
    && (forall id, c: u64 :: (id, c) in sent <==> id in channels && c < channels[id].ch.counter)
    && (forall id | id in channels :: channels[id].ch.window == Run(Fresh(), accepted[id]))
  }

  ghost predicate CountersInv(n: Node) {
    CountersSound(n.channels, n.sent, n.accepted)
  }

  ghost predicate SideInv(n: Node, peer: Node, inbox: set<Packet>) {
    TablesInv(n) && OffersSound(n.kp, n.offers, peer.kp) && AnswersSound(n.kp, n.answers, peer.offers) &&
    FlightsInv(n, peer) && ChannelsInv(n, peer) && ReadsInv(n, peer) && InboxInv(inbox, peer) && CountersInv(n)
  }

  // ---------------------------------------------------------------- what the peer relies on

  /** A step of n never withdraws an offer, an answer, a sealed packet or a session's partner and keys. */
  ghost predicate Extends(n: Node, n': Node) {
    && n.kp == n'.kp
    && (forall id | id in n.offers :: id in n'.offers && n'.offers[id] == n.offers[id])
    && (forall id | id in n.answers :: id in n'.answers && n'.answers[id] == n.answers[id])
    && (forall k | k in n.sent :: k in n'.sent && n'.sent[k] == n.sent[k])
    && (forall id | id in n.channels ::
          id in n'.channels && n'.channels[id].receiverID == n.channels[id].receiverID &&
          n'.channels[id].ch.sendKey == n.channels[id].ch.sendKey &&
          n'.channels[id].ch.recvKey == n.channels[id].ch.recvKey)
  }

  lemma PeerUnaffected(peer: Node, n: Node, n': Node, inbox: set<Packet>)
    requires SideInv(peer, n, inbox) && Extends(n, n')
    ensures SideInv(peer, n', inbox)
  {
    PeerAnswersUnaffected(peer, n, n');
    PeerInboxUnaffected(n, n', inbox);
    PeerChannelsUnaffected(peer, n, n');
    PeerReadsUnaffected(peer, n, n');
  }

  lemma PeerReadsUnaffected(peer: Node, n: Node, n': Node)
    requires ReadsInv(peer, n) && Extends(n, n')
    ensures ReadsInv(peer, n')
  {
    forall r | r in peer.readers ensures ReadSound(peer.readers[r], n'.channels, n'.sent) {
      assert ReadSound(peer.readers[r], n.channels, n.sent);
    }
  }

  lemma PeerAnswersUnaffected(peer: Node, n: Node, n': Node)
    requires AnswersSound(peer.kp, peer.answers, n.offers) && Extends(n, n')
    ensures AnswersSound(peer.kp, peer.answers, n'.offers)
  {
    forall id | id in peer.answers ensures SoundAnswer(peer.kp, peer.answers, n'.offers, id) {
      assert SoundAnswer(peer.kp, peer.answers, n.offers, id);
    }
  }

  lemma PeerInboxUnaffected(n: Node, n': Node, inbox: set<Packet>)
    requires InboxInv(inbox, n) && Extends(n, n')
    ensures InboxInv(inbox, n')
  {
  }

  lemma PeerChannelsUnaffected(peer: Node, n: Node, n': Node)
    requires ChannelsInv(peer, n) && FlightsInv(peer, n) && Extends(n, n')
    ensures ChannelsInv(peer, n') && FlightsInv(peer, n')
  {
  }

  /** n has stepped to n' and added out to the peer's inbox: both sides still hold. */
  ghost predicate StepFits(n': Node, peer: Node, inbox: set<Packet>, peerInbox: set<Packet>, out: set<Packet>) {
    SideInv(n', peer, inbox) && SideInv(peer, n', peerInbox + out)
  }

  lemma Fits(n: Node, n': Node, peer: Node, inbox: set<Packet>, peerInbox: set<Packet>, out: set<Packet>)
    requires SideInv(n, peer, inbox) && SideInv(peer, n, peerInbox)
    requires TablesInv(n') && OffersSound(n'.kp, n'.offers, peer.kp) && AnswersSound(n'.kp, n'.answers, peer.offers)
    requires FlightsInv(n', peer) && ChannelsInv(n', peer) && CountersInv(n')
    requires Extends(n, n') && InboxInv(out, n') && ReadsInv(n', peer)
    ensures StepFits(n', peer, inbox, peerInbox, out)
  {
    PeerUnaffected(peer, n, n', peerInbox);
    InboxGrows(peerInbox, out, n');
  }

  lemma InboxGrows(inbox: set<Packet>, out: set<Packet>, peer: Node)
    requires InboxInv(inbox, peer) && InboxInv(out, peer)
    ensures InboxInv(inbox + out, peer)
  {
  }

  // ---------------------------------------------------------------- drawing an id

  /** n' holds one more flight under a new id, backed by one new offer or answer. */
  ghost predicate Drew(n: Node, n': Node) {
    n.tables.idCounter + 1 < TWO32 &&
    var id := n.tables.idCounter + 1;
    && n'.tables == Step(n.tables, DrawID)
    && id in n'.flights && n'.flights == n.flights[id := n'.flights[id]]
    && ((n'.flights[id].Initiating? && id in n'.offers && n'.offers == n.offers[id := n'.offers[id]] &&
         n'.answers == n.answers)
     || (n'.flights[id].Responding? && id in n'.answers && n'.answers == n.answers[id := n'.answers[id]] &&
         n'.offers == n.offers))
    && n'.kp == n.kp && n'.channels == n.channels && n'.accepted == n.accepted && n'.rekeyed == n.rekeyed
    && n'.sent == n.sent && n'.readers == n.readers
  }

  lemma DrewTables(n: Node, n': Node)
    requires TablesInv(n) && Drew(n, n')
    ensures TablesInv(n')
  {
    StepKeepsInv(n.tables, DrawID);
  }

  lemma DrewFlights(n: Node, n': Node, peer: Node)
    requires TablesInv(n) && FlightsInv(n, peer) && Drew(n, n')
    requires var id := n.tables.idCounter + 1;
             match n'.flights[id]
             case Initiating(hs, m1) => hs == n'.offers[id].hs && m1 == n'.offers[id].m1
             case Responding(_, keys, m2, i) =>
               keys == n'.answers[id].keys && m2 == n'.answers[id].m2 && i == n'.answers[id].initiatorID
             case _ => false
    ensures FlightsInv(n', peer)
  {
  }

  lemma DrewChannels(n: Node, n': Node, peer: Node)
    requires TablesInv(n) && ChannelsInv(n, peer) && Drew(n, n')
    ensures ChannelsInv(n', peer) && Extends(n, n')
  {
  }

  lemma BeginInitiateFits(n: Node, peer: Node, inbox: set<Packet>, peerInbox: set<Packet>, eph: nat)
    requires SideInv(n, peer, inbox) && SideInv(peer, n, peerInbox) && CanStep(n, inbox, BeginInitiate(eph))
    ensures StepFits(Offered(n, peer.kp, eph), peer, inbox, peerInbox, {})
  {
    var n' := Offered(n, peer.kp, eph);
    OfferIsDrawn(n, peer.kp, eph);
    OfferIsSound(n, peer.kp, eph);
    DrewTables(n, n');
    DrewFlights(n, n', peer);
    DrewChannels(n, n', peer);
    Fits(n, n', peer, inbox, peerInbox, {});
  }

  lemma OfferIsDrawn(n: Node, peer: nat, eph: nat)
    requires n.tables.idCounter + 1 < TWO32
    ensures Drew(n, Offered(n, peer, eph))
  {
  }

  lemma OfferIsSound(n: Node, peer: nat, eph: nat)
    requires OffersSound(n.kp, n.offers, peer) && n.tables.idCounter + 1 < TWO32
    ensures OffersSound(n.kp, Offered(n, peer, eph).offers, peer)
  {
    var n', new' := Offered(n, peer, eph), n.tables.idCounter + 1;
    FirstMessageIsSent(n.kp, peer, eph);
    MoreOffersSound(n.kp, n.offers, peer, new', n'.offers[new']);
  }

  lemma MoreOffersSound(kp: nat, offers: map<u32, Offer>, peer: nat, id: u32, o: Offer)
    requires OffersSound(kp, offers, peer) && Noise.Sent1(o.hs, kp, Public(peer), o.ephemeral, o.m1)
    ensures OffersSound(kp, offers[id := o], peer)
  {
    var more := offers[id := o];
    forall i | i in more ensures SoundOffer(kp, more, peer, i) {
      if i != id { assert SoundOffer(kp, offers, peer, i); }
    }
  }

  lemma FirstMessageIsSent(kp: nat, peer: nat, eph: nat)
    ensures var (hs, m1) := Noise.Write1(Noise.Initiator(kp, Public(peer), eph));
            m1.Ok? && Noise.Sent1(hs, kp, Public(peer), eph, m1.value)
  {
    Noise.Message1AcceptedIffAddressed(kp, peer, eph, peer, 0);
  }

  lemma BeginRespondFits(n: Node, peer: Node, inbox: set<Packet>, peerInbox: set<Packet>, init: InitPacket, eph: nat)
    requires SideInv(n, peer, inbox) && SideInv(peer, n, peerInbox) && CanStep(n, inbox, BeginRespond(init, eph))
    ensures StepFits(Answering(n, init, eph), peer, inbox, peerInbox, {})
  {
    assert Init(init) in inbox;
    if Answering(n, init, eph) == n {
      Fits(n, n, peer, inbox, peerInbox, {});
    } else {
      AnswerIsDrawn(n, peer, init, eph);
      Fits(n, Answering(n, init, eph), peer, inbox, peerInbox, {});
    }
  }

  lemma AnswerIsDrawn(n: Node, peer: Node, init: InitPacket, eph: nat)
    requires TablesInv(n) && FlightsInv(n, peer) && ChannelsInv(n, peer) && ReadsInv(n, peer) && CountersInv(n)
    requires AnswersSound(n.kp, n.answers, peer.offers) && n.tables.idCounter + 1 < TWO32
    requires init.sender in peer.offers && init.m1 == peer.offers[init.sender].m1
    requires Answering(n, init, eph) != n
    ensures var n' := Answering(n, init, eph);
            TablesInv(n') && FlightsInv(n', peer) && ChannelsInv(n', peer) && ReadsInv(n', peer) && CountersInv(n') &&
            AnswersSound(n'.kp, n'.answers, peer.offers) && Extends(n, n')
  {
    var n' := Answering(n, init, eph);
    AnswerIsSound(n, peer, init, eph);
    DrewTables(n, n');
    DrewFlights(n, n', peer);
    DrewChannels(n, n', peer);
  }

  lemma AnswerIsSound(n: Node, peer: Node, init: InitPacket, eph: nat)
    requires AnswersSound(n.kp, n.answers, peer.offers) && n.tables.idCounter + 1 < TWO32
    requires init.sender in peer.offers && init.m1 == peer.offers[init.sender].m1
    requires Answering(n, init, eph) != n
    ensures Drew(n, Answering(n, init, eph))
    ensures AnswersSound(n.kp, Answering(n, init, eph).answers, peer.offers)
  {
    var n', id := Answering(n, init, eph), n.tables.idCounter + 1;
    MoreAnswersSound(n.kp, n.answers, peer.offers, id, n'.answers[id]);
  }

  lemma MoreAnswersSound(kp: nat, answers: map<u32, Answer>, offers: map<u32, Offer>, id: u32, a: Answer)
    requires AnswersSound(kp, answers, offers) && a.initiatorID in offers && Noise.TransportKeys(a.r) == Ok(a.keys)
    requires Noise.Answered(a.r, kp, a.ephemeral, offers[a.initiatorID].m1, a.m2)
    ensures AnswersSound(kp, answers[id := a], offers)
  {
    var more := answers[id := a];
    forall i | i in more ensures SoundAnswer(kp, more, offers, i) {
      if i != id { assert SoundAnswer(kp, answers, offers, i); }
    }
  }

  // ---------------------------------------------------------------- the pending table

  /** Only the tables and the flights differ. */
  predicate SameSessionsBut(n: Node, n': Node) {
    n' == n.(tables := n'.tables, flights := n'.flights)
  }

  lemma KeepPendingFits(n: Node, peer: Node, inbox: set<Packet>, peerInbox: set<Packet>, id: u32, now: int)
    requires SideInv(n, peer, inbox) && SideInv(peer, n, peerInbox) && CanStep(n, inbox, KeepPending(id, now))
    ensures var (n', out) := PendingKept(n, peer.kp, id, now); StepFits(n', peer, inbox, peerInbox, out)
  {
    var (n', out) := PendingKept(n, peer.kp, id, now);
    PendingKeptTables(n, peer, id, now);
    assert Extends(n, n');
    Fits(n, n', peer, inbox, peerInbox, out);
  }

  lemma PendingKeptTables(n: Node, peer: Node, id: u32, now: int)
    requires TablesInv(n) && FlightsInv(n, peer) && id in n.flights && n.flights[id].Initiating?
    ensures var (n', out) := PendingKept(n, peer.kp, id, now);
            TablesInv(n') && FlightsInv(n', peer) && InboxInv(out, n')
  {
    StepKeepsInv(n.tables, InsertPending(Pending(Public(peer.kp), n.flights[id].hs, id, now)));
  }

  lemma TakeOfferFits(n: Node, peer: Node, inbox: set<Packet>, peerInbox: set<Packet>, resp: RespPacket)
    requires SideInv(n, peer, inbox) && SideInv(peer, n, peerInbox) && CanStep(n, inbox, TakeOffer(resp))
    ensures StepFits(OfferTaken(n, resp), peer, inbox, peerInbox, {})
  {
    assert Resp(resp) in inbox;
    OfferTakenTables(n, peer, resp);
    Fits(n, OfferTaken(n, resp), peer, inbox, peerInbox, {});
  }

  lemma OfferTakenTables(n: Node, peer: Node, resp: RespPacket)
    requires TablesInv(n) && FlightsInv(n, peer) && IsAnswer(peer.answers, peer.channels, resp)
    ensures TablesInv(OfferTaken(n, resp)) && FlightsInv(OfferTaken(n, resp), peer)
    ensures SameSessionsBut(n, OfferTaken(n, resp))
  {
    OfferTakenKeepsTables(n, resp);
    OfferTakenFlights(n, peer, resp);
  }

  lemma OfferTakenKeepsTables(n: Node, resp: RespPacket)
    requires TablesInv(n)
    ensures TablesInv(OfferTaken(n, resp))
  {
    if resp.receiver in n.tables.pending {
      StepKeepsInv(n.tables, TakePending(resp.receiver));
      MovedToDrafts(n, OfferTaken(n, resp), resp.receiver);
    }
  }

  /** One pending id became a draft with a flight. */
  lemma MovedToDrafts(n: Node, n': Node, id: u32)
    requires TablesInv(n) && Inv(n'.tables) && id in n.tables.pending && id in n'.flights
    requires n'.tables == n.tables.(pending := n.tables.pending - {id}, drafts := n.tables.drafts + {id})
    requires n' == n.(tables := n'.tables, flights := n.flights[id := n'.flights[id]])
    ensures TablesInv(n')
  {
  }

  lemma OfferTakenFlights(n: Node, peer: Node, resp: RespPacket)
    requires FlightsInv(n, peer) && IsAnswer(peer.answers, peer.channels, resp)
    ensures FlightsInv(OfferTaken(n, resp), peer)
  {
  }

  /** Only the tables and the record of rekeyed ids differ, and no pending entry is new. */
  ghost predicate FewerPending(n: Node, n': Node) {
    n' == n.(tables := n'.tables, rekeyed := n'.rekeyed) &&
    forall id | id in n'.tables.pending :: id in n.tables.pending && n'.tables.pending[id] == n.tables.pending[id]
  }

  lemma FewerPendingKeeps(n: Node, n': Node, peer: Node)
    requires FlightsInv(n, peer) && ChannelsInv(n, peer) && FewerPending(n, n')
    ensures FlightsInv(n', peer) && ChannelsInv(n', peer) && Extends(n, n')
  {
  }

  lemma FewerPendingFits(n: Node, n': Node, peer: Node, inbox: set<Packet>, peerInbox: set<Packet>)
    requires SideInv(n, peer, inbox) && SideInv(peer, n, peerInbox) && TablesInv(n') && FewerPending(n, n')
    ensures StepFits(n', peer, inbox, peerInbox, {})
  {
    FewerPendingKeeps(n, n', peer);
    Fits(n, n', peer, inbox, peerInbox, {});
  }

  lemma TimeoutFits(n: Node, peer: Node, inbox: set<Packet>, peerInbox: set<Packet>, now: int)
    requires SideInv(n, peer, inbox) && SideInv(peer, n, peerInbox)
    ensures StepFits(n.(tables := Step(n.tables, Expire(now))), peer, inbox, peerInbox, {})
  {
    ExpiredTables(n, now);
    FewerPendingFits(n, n.(tables := Step(n.tables, Expire(now))), peer, inbox, peerInbox);
  }

  lemma ExpiredTables(n: Node, now: int)
    requires TablesInv(n)
    ensures var n' := n.(tables := Step(n.tables, Expire(now))); TablesInv(n') && FewerPending(n, n')
  {
    StepKeepsInv(n.tables, Expire(now));
  }

  lemma RekeyFits(n: Node, peer: Node, inbox: set<Packet>, peerInbox: set<Packet>, key: Term)
    requires SideInv(n, peer, inbox) && SideInv(peer, n, peerInbox)
    ensures StepFits(Rekeyed(n, key), peer, inbox, peerInbox, {})
  {
    RekeyedTables(n, key);
    FewerPendingFits(n, Rekeyed(n, key), peer, inbox, peerInbox);
  }

  lemma RekeyedTables(n: Node, key: Term)
    requires TablesInv(n)
    ensures TablesInv(Rekeyed(n, key)) && FewerPending(n, Rekeyed(n, key))
  {
    StepKeepsInv(n.tables, Rekey(key));
  }

  // ---------------------------------------------------------------- keeping a session

  lemma KeptTables(n: Node, id: u32, peer: Term, receiverID: u32, keys: (Term, Term))
    requires TablesInv(n) && id in n.tables.drafts
    ensures TablesInv(Kept(n, id, peer, receiverID, keys)) && Extends(n, Kept(n, id, peer, receiverID, keys))
  {
    var ps := PeerSession((), receiverID, id);
    StepKeepsInv(n.tables, BuildSession(peer, ps));
    KeptOrdered(n, id, peer, receiverID, keys);
    KeptIsKnown(n, id, peer, receiverID, keys);
    KeptExtends(n, id, peer, receiverID, keys);
  }

  lemma KeptOrdered(n: Node, id: u32, peer: Term, receiverID: u32, keys: (Term, Term))
    requires Ordered(n) && id in n.tables.drafts
    ensures Ordered(Kept(n, id, peer, receiverID, keys))
  {
  }

  /** The new session is in byID with its receiver id; all others are where they were. */
  lemma KeptIsKnown(n: Node, id: u32, peer: Term, receiverID: u32, keys: (Term, Term))
    requires TablesInv(n) && id in n.tables.drafts
    ensures var n' := Kept(n, id, peer, receiverID, keys);
            n'.tables.byID.Keys <= n'.channels.Keys &&
            (forall i | i in n'.tables.byID :: n'.tables.byID[i].receiverID == n'.channels[i].receiverID) &&
            (forall i | i in n'.channels :: i in n'.tables.byID || i in n'.rekeyed) &&
            n'.channels.Keys !! n'.tables.drafts !! n'.tables.pending.Keys
  {
  }

  lemma KeptExtends(n: Node, id: u32, peer: Term, receiverID: u32, keys: (Term, Term))
    requires id in n.tables.drafts && id !in n.channels
    ensures Extends(n, Kept(n, id, peer, receiverID, keys))
  {
  }

  lemma KeptRest(n: Node, peer: Node, id: u32, key: Term, receiverID: u32, keys: (Term, Term))
    requires TablesInv(n) && FlightsInv(n, peer) && CountersInv(n) && id in n.tables.drafts
    ensures var n' := Kept(n, id, key, receiverID, keys); FlightsInv(n', peer) && CountersInv(n')
  {
    KeptFlights(n, peer, id, key, receiverID, keys);
    NewChannelCounters(n.channels, n.sent, n.accepted, id, Established(receiverID, NewChannel(keys.0, keys.1)));
  }

  lemma KeptFlights(n: Node, peer: Node, id: u32, key: Term, receiverID: u32, keys: (Term, Term))
    requires FlightsInv(n, peer) && id in n.tables.drafts
    ensures FlightsInv(Kept(n, id, key, receiverID, keys), peer)
  {
  }

  lemma NewChannelCounters(channels: map<u32, Established>, sent: map<(u32, u64), seq<int>>,
                           accepted: map<u32, seq<u64>>, id: u32, est: Established)
    requires CountersSound(channels, sent, accepted) && id !in channels
    requires est.ch.counter == 0 && est.ch.window == Fresh()
    ensures CountersSound(channels[id := est], sent, accepted[id := []])
  {
    var more := channels[id := est];
    forall i, c: u64 ensures (i, c) in sent <==> i in more && c < more[i].ch.counter {
      assert (i, c) in sent <==> i in channels && c < channels[i].ch.counter;
    }
  }

  lemma FinishRespondFits(n: Node, peer: Node, inbox: set<Packet>, peerInbox: set<Packet>, id: u32)
    requires SideInv(n, peer, inbox) && SideInv(peer, n, peerInbox) && CanStep(n, inbox, FinishRespond(id))
    ensures var (n', out) := AnswerKept(n, id); StepFits(n', peer, inbox, peerInbox, out)
  {
    var (n', out) := AnswerKept(n, id);
    var f := n.flights[id];
    KeptTables(n, id, f.remote, f.initiatorID, f.keys);
    KeptRest(n, peer, id, f.remote, f.initiatorID, f.keys);
    AnswerKeptChannels(n, peer, id);
    Fits(n, n', peer, inbox, peerInbox, out);
  }

  lemma AnswerKeptChannels(n: Node, peer: Node, id: u32)
    requires TablesInv(n) && FlightsInv(n, peer) && ChannelsInv(n, peer)
    requires id in n.flights && n.flights[id].Responding?
    ensures var (n', out) := AnswerKept(n, id); ChannelsInv(n', peer) && InboxInv(out, n')
  {
    assert id in n.answers && id !in n.offers;
  }

  lemma FinishInitiateFits(n: Node, peer: Node, inbox: set<Packet>, peerInbox: set<Packet>, id: u32)
    requires SideInv(n, peer, inbox) && SideInv(peer, n, peerInbox) && CanStep(n, inbox, FinishInitiate(id))
    ensures StepFits(Completed(n, id), peer, inbox, peerInbox, {})
  {
    var f := n.flights[id];
    OfferCompletes(n, peer, id);
    var keys := Noise.TransportKeys(Noise.Read2(f.p.hs, f.resp.m2).0).value;
    KeptTables(n, id, f.p.peer, f.resp.sender, keys);
    KeptRest(n, peer, id, f.p.peer, f.resp.sender, keys);
    CompletedChannels(n, peer, id, keys);
    Fits(n, Completed(n, id), peer, inbox, peerInbox, {});
  }

  /** An answer that reaches the handler of its offer is accepted, with the answerer's keys crossed. */
  lemma OfferCompletes(n: Node, peer: Node, id: u32)
    requires OffersSound(n.kp, n.offers, peer.kp) && AnswersSound(peer.kp, peer.answers, n.offers)
    requires FlightsInv(n, peer) && id in n.flights && n.flights[id].Completing?
    ensures var f := n.flights[id];
            Noise.Read2(f.p.hs, f.resp.m2).1 && f.resp.sender in peer.answers &&
            var keys := peer.answers[f.resp.sender].keys;
            Noise.TransportKeys(Noise.Read2(f.p.hs, f.resp.m2).0) == Ok((keys.1, keys.0))
  {
    var f := n.flights[id];
    var o, a := n.offers[id], peer.answers[f.resp.sender];
    assert SoundOffer(n.kp, n.offers, peer.kp, id);
    assert SoundAnswer(peer.kp, peer.answers, n.offers, f.resp.sender);
    Noise.HonestReplyAgrees(o.hs, n.kp, o.ephemeral, o.m1, a.r, peer.kp, a.ephemeral, a.m2);
  }

  lemma CompletedChannels(n: Node, peer: Node, id: u32, keys: (Term, Term))
    requires TablesInv(n) && FlightsInv(n, peer) && ChannelsInv(n, peer) && ChannelsInv(peer, n)
    requires id in n.flights && n.flights[id].Completing? && n.flights[id].resp.sender in peer.answers
    requires keys == (peer.answers[n.flights[id].resp.sender].keys.1, peer.answers[n.flights[id].resp.sender].keys.0)
    ensures ChannelsInv(Kept(n, id, n.flights[id].p.peer, n.flights[id].resp.sender, keys), peer)
  {
    assert id in n.offers && id !in n.answers;
  }

  // ---------------------------------------------------------------- data

  lemma SendFits(n: Node, peer: Node, inbox: set<Packet>, peerInbox: set<Packet>, id: u32, packet: seq<int>)
    requires SideInv(n, peer, inbox) && SideInv(peer, n, peerInbox) && CanStep(n, inbox, Send(id, packet))
    ensures var (n', out) := Sealing(n, id, packet); StepFits(n', peer, inbox, peerInbox, out)
  {
    var (n', out) := Sealing(n, id, packet);
    SealingCounters(n, id, packet);
    SameSessionsFit(n, n', peer);
    Fits(n, n', peer, inbox, peerInbox, out);
  }

  /** Each seal uses a counter that no earlier seal on the session has used. */
  lemma SealingCounters(n: Node, id: u32, packet: seq<int>)
    requires Ordered(n) && CountersInv(n) && id in n.channels && n.channels[id].ch.counter + 1 < TWO64
    ensures (id, n.channels[id].ch.counter) !in n.sent
    ensures var (n', out) := Sealing(n, id, packet);
            CountersInv(n') && SameSessions(n, n') && InboxInv(out, n')
  {
    CounterRises(n.channels, n.sent, n.accepted, id, packet);
    SealingSessions(n, id, packet);
  }

  lemma CounterRises(channels: map<u32, Established>, sent: map<(u32, u64), seq<int>>, accepted: map<u32, seq<u64>>,
                     id: u32, packet: seq<int>)
    requires CountersSound(channels, sent, accepted) && id in channels && channels[id].ch.counter + 1 < TWO64
    ensures (id, channels[id].ch.counter) !in sent
    ensures CountersSound(channels[id := channels[id].(ch := AfterSeal(channels[id].ch))],
                          sent[(id, channels[id].ch.counter) := packet], accepted)
  {
    var channels' := channels[id := channels[id].(ch := AfterSeal(channels[id].ch))];
    var sent' := sent[(id, channels[id].ch.counter) := packet];
    forall i, c: u64 ensures (i, c) in sent' <==> i in channels' && c < channels'[i].ch.counter {
      assert (i, c) in sent <==> i in channels && c < channels[i].ch.counter;
    }
  }

  lemma SealingSessions(n: Node, id: u32, packet: seq<int>)
    requires Ordered(n) && id in n.channels && (id, n.channels[id].ch.counter) !in n.sent
    ensures var (n', out) := Sealing(n, id, packet); SameSessions(n, n') && InboxInv(out, n')
  {
  }

  /** Only counters, windows and the record of sent packets differ. */
  ghost predicate SameSessions(n: Node, n': Node) {
    && n'.kp == n.kp && n'.tables == n.tables && n'.flights == n.flights && n'.rekeyed == n.rekeyed
    && n'.offers == n.offers && n'.answers == n.answers && n'.accepted.Keys == n.accepted.Keys
    && n'.channels.Keys == n.channels.Keys
    && (forall id | id in n.channels ::
          n'.channels[id].receiverID == n.channels[id].receiverID &&
          n'.channels[id].ch.sendKey == n.channels[id].ch.sendKey &&
          n'.channels[id].ch.recvKey == n.channels[id].ch.recvKey)
    && (forall k | k in n.sent :: k in n'.sent && n'.sent[k] == n.sent[k])
    && (forall r | r in n'.readers :: n'.readers[r].id in n.channels)
  }

  lemma SameSessionsFit(n: Node, n': Node, peer: Node)
    requires TablesInv(n) && FlightsInv(n, peer) && ChannelsInv(n, peer) && SameSessions(n, n')
    ensures TablesInv(n') && FlightsInv(n', peer) && ChannelsInv(n', peer) && Extends(n, n')
  {
    SameSessionsOrdered(n, n');
    SameSessionsMirror(n, n', peer);
  }

  lemma SameSessionsOrdered(n: Node, n': Node)
    requires Ordered(n) && SameSessions(n, n')
    ensures Ordered(n')
  {
    forall r | r in n'.readers ensures n'.readers[r].id in n'.channels { assert n'.readers[r].id in n.channels; }
  }

  lemma SameSessionsMirror(n: Node, n': Node, peer: Node)
    requires ChannelsInv(n, peer) && SameSessions(n, n')
    ensures ChannelsInv(n', peer) && Extends(n, n')
  {
  }

  /** A step that changes readers, windows or counters alone and sends nothing. */
  lemma QuietStepFits(n: Node, n': Node, peer: Node, inbox: set<Packet>, peerInbox: set<Packet>)
    requires SideInv(n, peer, inbox) && SideInv(peer, n, peerInbox)
    requires SameSessions(n, n') && ReadsInv(n', peer) && CountersInv(n')
    ensures StepFits(n', peer, inbox, peerInbox, {})
  {
    SameSessionsFit(n, n', peer);
    Fits(n, n', peer, inbox, peerInbox, {});
  }

  lemma CheckFits(n: Node, peer: Node, inbox: set<Packet>, peerInbox: set<Packet>, reader: nat, d: DataPacket, via: u32)
    requires SideInv(n, peer, inbox) && SideInv(peer, n, peerInbox) && CanStep(n, inbox, CheckData(reader, d, via))
    ensures StepFits(Opened(n, reader, d, via), peer, inbox, peerInbox, {})
  {
    assert Data(d, via) in inbox;
    OpenedIsSound(n, peer, reader, d, via);
    QuietStepFits(n, Opened(n, reader, d, via), peer, inbox, peerInbox);
  }

  lemma OpenedIsSound(n: Node, peer: Node, reader: nat, d: DataPacket, via: u32)
    requires Ordered(n) && ReadsInv(n, peer) && d.receiver in n.channels && IsSealed(peer.channels, peer.sent, d, via)
    ensures var n' := Opened(n, reader, d, via);
            ReadsInv(n', peer) && SameSessions(n, n') && (CountersInv(n) ==> CountersInv(n'))
  {
    var n' := Opened(n, reader, d, via);
    if Unsealed(n.channels[d.receiver].ch, d.counter, d.box).Ok? {
      OpensToSealed(n.channels[d.receiver].ch, peer, d, via);
      NewReadSound(n.readers, reader, n'.readers[reader], peer);
    }
    ReadersKnown(n, reader, d, via);
  }

  lemma OpensToSealed(ch: Channel, peer: Node, d: DataPacket, via: u32)
    requires IsSealed(peer.channels, peer.sent, d, via) && Unsealed(ch, d.counter, d.box).Ok?
    ensures ReadSound(Read(d.receiver, d.counter, Unsealed(ch, d.counter, d.box).value, via), peer.channels, peer.sent)
  {
  }

  lemma NewReadSound(readers: map<nat, Read>, reader: nat, read: Read, peer: Node)
    requires forall r | r in readers :: ReadSound(readers[r], peer.channels, peer.sent)
    requires ReadSound(read, peer.channels, peer.sent)
    ensures var more := readers[reader := read]; forall r | r in more :: ReadSound(more[r], peer.channels, peer.sent)
  {
  }

  lemma ReadersKnown(n: Node, reader: nat, d: DataPacket, via: u32)
    requires Ordered(n) && d.receiver in n.channels
    ensures forall r | r in Opened(n, reader, d, via).readers :: Opened(n, reader, d, via).readers[r].id in n.channels
  {
  }

  lemma AdvanceFits(n: Node, peer: Node, inbox: set<Packet>, peerInbox: set<Packet>, reader: nat)
    requires SideInv(n, peer, inbox) && SideInv(peer, n, peerInbox) && CanStep(n, inbox, AdvanceData(reader))
    ensures StepFits(Delivered(n, reader), peer, inbox, peerInbox, {})
  {
    DeliveredCounters(n, reader);
    DeliveredReads(n, peer, reader);
    QuietStepFits(n, Delivered(n, reader), peer, inbox, peerInbox);
  }

  lemma DeliveredReads(n: Node, peer: Node, reader: nat)
    requires Ordered(n) && ReadsInv(n, peer) && reader in n.readers
    ensures ReadsInv(Delivered(n, reader), peer)
  {
    var n' := Delivered(n, reader);
    forall r | r in n'.readers ensures ReadSound(n'.readers[r], peer.channels, peer.sent) {
      assert ReadSound(n.readers[r], peer.channels, peer.sent);
    }
  }

  lemma DeliveredCounters(n: Node, reader: nat)
    requires Ordered(n) && CountersInv(n) && reader in n.readers
    ensures CountersInv(Delivered(n, reader)) && SameSessions(n, Delivered(n, reader))
  {
    var read := n.readers[reader];
    WindowMoves(n.channels, n.sent, n.accepted, read.id, read.counter);
  }

  lemma WindowMoves(channels: map<u32, Established>, sent: map<(u32, u64), seq<int>>, accepted: map<u32, seq<u64>>,
                    id: u32, c: u64)
    requires CountersSound(channels, sent, accepted) && id in channels
    ensures var est := channels[id];
            CountersSound(channels[id := est.(ch := est.ch.(window := Advanced(est.ch.window, c)))], sent,
                          accepted[id := accepted[id] + [c]])
  {
    var est, cs := channels[id], accepted[id];
    var channels' := channels[id := est.(ch := est.ch.(window := Advanced(est.ch.window, c)))];
    assert (cs + [c])[..|cs|] == cs;
    forall i, c: u64 ensures (i, c) in sent <==> i in channels' && c < channels'[i].ch.counter {
      assert (i, c) in sent <==> i in channels && c < channels[i].ch.counter;
    }
  }

  // ---------------------------------------------------------------- both engines

  datatype Side = A | B

  datatype World = World(a: Node, b: Node, toA: set<Packet>, toB: set<Packet>) {
    function At(s: Side): Node { if s.A? then a else b }

    function Inbox(s: Side): set<Packet> { if s.A? then toA else toB }
  }

  function Other(s: Side): Side {
    if s.A? then B else A
  }

  ghost predicate Holds(w: World) {
    SideInv(w.a, w.b, w.toA) && SideInv(w.b, w.a, w.toB)
  }

  predicate Possible(w: World, s: Side, e: Event) {
    CanStep(w.At(s), w.Inbox(s), e)
  }

  function Next(w: World, s: Side, e: Event): World
    requires Possible(w, s, e) && Ordered(w.At(s))
  {
    var (n, out) := Act(w.At(s), w.At(Other(s)).kp, w.Inbox(s), e);
    if s.A? then World(n, w.b, w.toA, w.toB + out) else World(w.a, n, w.toA + out, w.toB)
  }

  predicate IsData(e: Event) {
    e.Send? || e.CheckData? || e.AdvanceData?
  }

  lemma HandshakeFits(n: Node, peer: Node, inbox: set<Packet>, peerInbox: set<Packet>, e: Event)
    requires SideInv(n, peer, inbox) && SideInv(peer, n, peerInbox) && CanStep(n, inbox, e) && !IsData(e)
    ensures var (n', out) := Act(n, peer.kp, inbox, e); StepFits(n', peer, inbox, peerInbox, out)
  {
    match e
    case BeginInitiate(eph) => BeginInitiateFits(n, peer, inbox, peerInbox, eph);
    case KeepPending(id, now) => KeepPendingFits(n, peer, inbox, peerInbox, id, now);
    case BeginRespond(init, eph) => BeginRespondFits(n, peer, inbox, peerInbox, init, eph);
    case FinishRespond(id) => FinishRespondFits(n, peer, inbox, peerInbox, id);
    case TakeOffer(resp) => TakeOfferFits(n, peer, inbox, peerInbox, resp);
    case FinishInitiate(id) => FinishInitiateFits(n, peer, inbox, peerInbox, id);
    case Timeout(now) => TimeoutFits(n, peer, inbox, peerInbox, now);
    case RekeyThe(key) => RekeyFits(n, peer, inbox, peerInbox, key);
  }

  lemma ReadFits(n: Node, peer: Node, inbox: set<Packet>, peerInbox: set<Packet>, e: Event)
    requires SideInv(n, peer, inbox) && SideInv(peer, n, peerInbox) && CanStep(n, inbox, e)
    requires e.CheckData? || e.AdvanceData?
    ensures var (n', out) := Act(n, peer.kp, inbox, e); StepFits(n', peer, inbox, peerInbox, out)
  {
    match e
    case CheckData(reader, d, via) => CheckFits(n, peer, inbox, peerInbox, reader, d, via);
    case AdvanceData(reader) => AdvanceFits(n, peer, inbox, peerInbox, reader);
  }

  lemma ActFits(n: Node, peer: Node, inbox: set<Packet>, peerInbox: set<Packet>, e: Event)
    requires SideInv(n, peer, inbox) && SideInv(peer, n, peerInbox) && CanStep(n, inbox, e)
    ensures var (n', out) := Act(n, peer.kp, inbox, e); StepFits(n', peer, inbox, peerInbox, out)
  {
    if e.Send? {
      SendFits(n, peer, inbox, peerInbox, e.id, e.packet);
    } else if IsData(e) {
      ReadFits(n, peer, inbox, peerInbox, e);
    } else {
      HandshakeFits(n, peer, inbox, peerInbox, e);
    }
  }

  /** A tick of the timeout loop drops the handshakes that have waited for over five seconds, and nothing else. */
  lemma TimeoutDropsTheOld(n: Node, peer: nat, inbox: set<Packet>, now: int)
    requires Ordered(n)
    ensures var (n', out) := Act(n, peer, inbox, Timeout(now));
            out == {} && n' == n.(tables := n.tables.(pending := n'.tables.pending)) &&
            forall id :: id in n'.tables.pending <==>
                         id in n.tables.pending && now - n.tables.pending[id].sentAt <= 5
  {
  }

  lemma NextHolds(w: World, s: Side, e: Event)
    requires Holds(w) && Possible(w, s, e)
    ensures Holds(Next(w, s, e))
  {
    ActFits(w.At(s), w.At(Other(s)), w.Inbox(s), w.Inbox(Other(s)), e);
  }

  /** The engines start with empty tables and any two keys; then any possible steps follow, in any order. */
  ghost predicate Reaches(w: World, steps: seq<(Side, Event)>, w': World)
    decreases |steps|
  {
    if steps == [] then w == w'
    else Ordered(w.At(steps[0].0)) && Possible(w, steps[0].0, steps[0].1) &&
         Reaches(Next(w, steps[0].0, steps[0].1), steps[1..], w')
  }

  function Start(keyA: nat, keyB: nat): World {
    World(NewNode(keyA), NewNode(keyB), {}, {})
  }

  lemma {:induction false} ReachesHolds(w: World, steps: seq<(Side, Event)>, w': World)
    requires Holds(w) && Reaches(w, steps, w')
    ensures Holds(w')
    decreases |steps|
  {
    if steps != [] {
      NextHolds(w, steps[0].0, steps[0].1);
      ReachesHolds(Next(w, steps[0].0, steps[0].1), steps[1..], w');
    }
  }

  lemma StartHolds(keyA: nat, keyB: nat)
    ensures Holds(Start(keyA, keyB))
  {
  }

  /** In every reachable state a session an initiator holds is mirrored at the responder, in its byID table
      until the responder rekeys that session. */
  lemma InitiatorSessionsAreMirrored(keyA: nat, keyB: nat, steps: seq<(Side, Event)>, w: World, s: Side, id: u32)
    requires Reaches(Start(keyA, keyB), steps, w)
    requires id in w.At(s).tables.byID && id in w.At(s).offers
    ensures var n, peer := w.At(s), w.At(Other(s));
            var other := n.tables.byID[id].receiverID;
            Mirrored(n.channels, id, peer.channels) &&
            other == n.channels[id].receiverID && other in peer.channels &&
            ((other in peer.tables.byID && peer.tables.byID[other].receiverID == id) || other in peer.rekeyed)
  {
    StartHolds(keyA, keyB);
    ReachesHolds(Start(keyA, keyB), steps, w);
    MirrorFromSides(w.At(s), w.At(Other(s)), id);
  }

  lemma MirrorFromSides(n: Node, peer: Node, id: u32)
    requires TablesInv(n) && ChannelsInv(n, peer) && TablesInv(peer)
    requires id in n.tables.byID && id in n.offers
    ensures var other := n.tables.byID[id].receiverID;
            Mirrored(n.channels, id, peer.channels) &&
            other == n.channels[id].receiverID && other in peer.channels &&
            ((other in peer.tables.byID && peer.tables.byID[other].receiverID == id) || other in peer.rekeyed)
  {
  }

  /** A packet sealed on a mirrored session opens at the other end to the bytes that were sealed, exactly when
      the replay window lets its counter through; and anything that opens is what was sealed. */
  lemma SealedPacketsOpenAtThePeer(keyA: nat, keyB: nat, steps: seq<(Side, Event)>, w: World, s: Side,
                                   d: DataPacket, via: u32)
    requires Reaches(Start(keyA, keyB), steps, w) && Data(d, via) in w.Inbox(s)
    requires Mirrored(w.At(Other(s)).channels, via, w.At(s).channels)
    ensures Opens(w.At(s), w.At(Other(s)), d, via)
  {
    StartHolds(keyA, keyB);
    ReachesHolds(Start(keyA, keyB), steps, w);
    OpensFromSides(w.At(s), w.At(Other(s)), w.Inbox(s), d, via);
  }

  /** What the check and the opening at n make of a packet the peer sealed on its session via. */
  ghost predicate Opens(n: Node, peer: Node, d: DataPacket, via: u32) {
    d.receiver in n.channels && (via, d.counter) in peer.sent &&
    Unsealed(n.channels[d.receiver].ch, d.counter, d.box) ==
      if Accepts(n.channels[d.receiver].ch.window, d.counter)
      then Ok(Payload(peer.sent[(via, d.counter)])) else Err
  }

  lemma OpensFromSides(n: Node, peer: Node, inbox: set<Packet>, d: DataPacket, via: u32)
    requires InboxInv(inbox, peer) && Data(d, via) in inbox && Mirrored(peer.channels, via, n.channels)
    ensures IsSealed(peer.channels, peer.sent, d, via) && Opens(n, peer, d, via)
  {
    assert IsSealed(peer.channels, peer.sent, d, via);
  }

  /** End to end: a packet on a session its sender initiated passes the check at the peer and opens to the same bytes
      if its counter exceeds all delivered on that session; and, as long as the window has only made whole slides,
      exactly if its counter lies at or above the floor and was not delivered before. */
  lemma InitiatorPacketsAreDelivered(keyA: nat, keyB: nat, steps: seq<(Side, Event)>, w: World, s: Side,
                                     d: DataPacket, via: u32)
    requires Reaches(Start(keyA, keyB), steps, w) && Data(d, via) in w.Inbox(s)
    requires via in w.At(Other(s)).offers
    ensures Delivers(w.At(s), w.At(Other(s)), d, via)
  {
    StartHolds(keyA, keyB);
    ReachesHolds(Start(keyA, keyB), steps, w);
    DeliversFromSides(w.At(s), w.At(Other(s)), w.Inbox(s), d, via);
  }

  /** The receiving session exists, is reachable unless rekeyed, and opens d as said. */
  ghost predicate Delivers(n: Node, peer: Node, d: DataPacket, via: u32) {
    d.receiver in n.accepted && d.receiver in n.channels && (via, d.counter) in peer.sent &&
    (d.receiver in n.tables.byID || d.receiver in n.rekeyed) &&
    var past, result := n.accepted[d.receiver], Unsealed(n.channels[d.receiver].ch, d.counter, d.box);
    ((forall c | c in past :: c < d.counter) ==> result == Ok(Payload(peer.sent[(via, d.counter)]))) &&
    (WholeSlides(Fresh(), past) ==>
       result == if d.counter >= Run(Fresh(), past).floor && d.counter !in past
                 then Ok(Payload(peer.sent[(via, d.counter)])) else Err)
  }

  lemma DeliversFromSides(n: Node, peer: Node, inbox: set<Packet>, d: DataPacket, via: u32)
    requires TablesInv(n) && CountersInv(n) && ChannelsInv(peer, n)
    requires InboxInv(inbox, peer) && Data(d, via) in inbox && via in peer.offers
    ensures Delivers(n, peer, d, via)
  {
    assert IsSealed(peer.channels, peer.sent, d, via);
    OpensFromSides(n, peer, inbox, d, via);
    var past := n.accepted[d.receiver];
    if forall c | c in past :: c < d.counter { NewestIsAccepted(past, d.counter); }
    if WholeSlides(Fresh(), past) {
      RunAgrees(past);
      assert Accepts(Run(Fresh(), past), d.counter) <==>
             d.counter >= Run(Fresh(), past).floor && d.counter !in (set c | c in past);
    }
  }

  /** No two seals on one session use the same counter: each Send finds its (session, counter) unused. */
  lemma NoCounterIsSealedTwice(keyA: nat, keyB: nat, steps: seq<(Side, Event)>, w: World, s: Side,
                               id: u32, packet: seq<int>)
    requires Reaches(Start(keyA, keyB), steps, w)
    requires id in w.At(s).channels && w.At(s).channels[id].ch.counter + 1 < TWO64
    ensures SealsFresh(w.At(s), id, packet)
  {
    StartHolds(keyA, keyB);
    ReachesHolds(Start(keyA, keyB), steps, w);
    SealsFreshFromCounters(w.At(s), id, packet);
  }

  lemma SealsFreshFromCounters(n: Node, id: u32, packet: seq<int>)
    requires Ordered(n) && CountersInv(n) && id in n.channels && n.channels[id].ch.counter + 1 < TWO64
    ensures SealsFresh(n, id, packet)
  {
    SealingCounters(n, id, packet);
  }

  ghost predicate SealsFresh(n: Node, id: u32, packet: seq<int>) {
    id in n.channels &&
    var c := n.channels[id].ch.counter;
    (id, c) !in n.sent && Sealing(n, id, packet).0.sent == n.sent[(id, c) := packet]
  }

  // ---------------------------------------------------------------- a handshake nobody disturbs

  /** The two regions of an initiation in a row: BeginInitiate, then KeepPending. */
  ghost predicate Initiates(n: Node, peer: nat, eph: nat, now: int, n': Node, init: InitPacket) {
    n.tables.idCounter + 1 < TWO32 &&
    var n1 := Offered(n, peer, eph);
    init.sender == n.tables.idCounter + 1 && init.sender in n1.tables.drafts &&
    init.sender in n1.flights && n1.flights[init.sender].Initiating? &&
    PendingKept(n1, peer, init.sender, now) == (n', {Init(init)})
  }

  /** The two regions of an answer: BeginRespond, then FinishRespond. */
  ghost predicate Responds(n: Node, init: InitPacket, eph: nat, n': Node, resp: RespPacket) {
    n.tables.idCounter + 1 < TWO32 &&
    var n1 := Answering(n, init, eph);
    resp.sender == n.tables.idCounter + 1 && resp.sender in n1.tables.drafts &&
    resp.sender in n1.flights && n1.flights[resp.sender].Responding? &&
    AnswerKept(n1, resp.sender) == (n', {Resp(resp)})
  }

  /** The two regions of a completion: TakeOffer, then FinishInitiate. */
  ghost predicate Completes(n: Node, resp: RespPacket, n': Node) {
    var n1 := OfferTaken(n, resp);
    resp.receiver in n1.tables.drafts && resp.receiver in n1.flights && n1.flights[resp.receiver].Completing? &&
    Completed(n1, resp.receiver) == n'
  }

  /** Packets to the peer now use the session under this id. */
  ghost predicate Current(n: Node, peer: nat, id: u32) {
    Public(peer) in n.tables.sessions && n.tables.sessions[Public(peer)].localID == id
  }

  lemma InitiationStands(n: Node, peer: nat, eph: nat, now: int) returns (n': Node, init: InitPacket)
    requires n.tables.idCounter + 1 < TWO32
    ensures Initiates(n, peer, eph, now, n', init) && init.sender in n'.tables.pending && n'.kp == n.kp
    ensures var entry := n'.tables.pending[init.sender];
            entry.peer == Public(peer) && Noise.Sent1(entry.hs, n.kp, Public(peer), eph, init.m1)
  {
    FirstMessageIsSent(n.kp, peer, eph);
    var n1, id := Offered(n, peer, eph), n.tables.idCounter + 1;
    n' := PendingKept(n1, peer, id, now).0;
    init := InitPacket(id, n1.flights[id].m1);
  }

  lemma AnswerStands(n: Node, init: InitPacket, eph: nat, hs: Noise.State, initiator: nat, ephI: nat)
      returns (n': Node, resp: RespPacket, r: Noise.State)
    requires n.tables.idCounter + 1 < TWO32 && Noise.Sent1(hs, initiator, Public(n.kp), ephI, init.m1)
    ensures Responds(n, init, eph, n', resp) && Noise.Answered(r, n.kp, eph, init.m1, resp.m2)
    ensures resp.receiver == init.sender && n'.kp == n.kp && Current(n', initiator, resp.sender)
    ensures resp.sender in n'.channels && Noise.TransportKeys(r).Ok? &&
            var keys := Noise.TransportKeys(r).value;
            n'.channels[resp.sender] == Established(init.sender, NewChannel(keys.0, keys.1))
  {
    var id := n.tables.idCounter + 1;
    r := AnsweringStands(n, init, eph, hs, initiator, ephI);
    n' := AnswerKept(Answering(n, init, eph), id).0;
    resp := RespPacket(id, init.sender, Noise.Write2(Noise.Read1(Noise.Responder(n.kp, eph), init.m1).0).1.value);
  }

  /** The first region of an answer to a first message for this key. */
  lemma AnsweringStands(n: Node, init: InitPacket, eph: nat, hs: Noise.State, initiator: nat, ephI: nat)
      returns (r: Noise.State)
    requires n.tables.idCounter + 1 < TWO32 && Noise.Sent1(hs, initiator, Public(n.kp), ephI, init.m1)
    ensures var n1, id := Answering(n, init, eph), n.tables.idCounter + 1;
            var m2 := Noise.Write2(Noise.Read1(Noise.Responder(n.kp, eph), init.m1).0).1;
            id in n1.tables.drafts && id in n1.flights && n1.kp == n.kp && m2.Ok? &&
            Noise.Answered(r, n.kp, eph, init.m1, m2.value) && Noise.TransportKeys(r).Ok? &&
            n1.flights[id] == Responding(Public(initiator), Noise.TransportKeys(r).value, m2.value, init.sender)
  {
    Noise.Message1AcceptedIffAddressed(initiator, n.kp, ephI, n.kp, eph);
    r := Noise.Write2(Noise.Read1(Noise.Responder(n.kp, eph), init.m1).0).0;
  }

  lemma CompletionStands(n: Node, resp: RespPacket, eph: nat, m1: Noise.Msg1, peer: nat, r: Noise.State, ephR: nat)
      returns (n': Node)
    requires resp.receiver in n.tables.pending && n.tables.pending[resp.receiver].peer == Public(peer)
    requires Noise.Sent1(n.tables.pending[resp.receiver].hs, n.kp, Public(peer), eph, m1)
    requires Noise.Answered(r, peer, ephR, m1, resp.m2)
    ensures Completes(n, resp, n') && n'.kp == n.kp && Current(n', peer, resp.receiver)
    ensures resp.receiver in n'.channels && Noise.TransportKeys(r).Ok? &&
            var keys := Noise.TransportKeys(r).value;
            n'.channels[resp.receiver] == Established(resp.sender, NewChannel(keys.1, keys.0))
  {
    var entry := n.tables.pending[resp.receiver];
    Noise.HonestReplyAgrees(entry.hs, n.kp, eph, m1, r, peer, ephR, resp.m2);
    n' := Completed(OfferTaken(n, resp), resp.receiver);
  }

  /** Between any two engines with an id left, in whatever state, an undisturbed handshake ends with a new session
      that is current at both ends and mirrored. */
  lemma UndisturbedHandshakeCompletes(n: Node, peer: Node, ephI: nat, ephR: nat, now: int)
      returns (n1: Node, init: InitPacket, peer1: Node, resp: RespPacket, n2: Node)
    requires n.tables.idCounter + 1 < TWO32 && peer.tables.idCounter + 1 < TWO32
    ensures Initiates(n, peer.kp, ephI, now, n1, init)
    ensures Responds(peer, init, ephR, peer1, resp)
    ensures Completes(n1, resp, n2)
    ensures Current(n2, peer.kp, init.sender) && Current(peer1, n.kp, resp.sender)
    ensures Mirrored(n2.channels, init.sender, peer1.channels)
    ensures init.sender in n2.channels && n2.channels[init.sender].receiverID == resp.sender
  {
    n1, init := InitiationStands(n, peer.kp, ephI, now);
    var hs := n1.tables.pending[init.sender].hs;
    var r;
    peer1, resp, r := AnswerStands(peer, init, ephR, hs, n.kp, ephI);
    n2 := CompletionStands(n1, resp, ephI, init.m1, peer.kp, r, ephR);
  }
}
