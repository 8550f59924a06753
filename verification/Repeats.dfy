/** A run of the two engines in which one packet is delivered twice by handlers that run one after the other. */
module Repeats {
  import opened Words
  import opened Crypto
  import opened Replay
  import opened Sessions
  import opened NodeEngine
  import opened Tunnel
  import Noise
  import Sequences

  predicate IsRead(e: Event) { e.CheckData? || e.AdvanceData? }

  /** Every check is followed at once by the advance of the same handler. */
  predicate OneAtATime(steps: seq<(Side, Event)>)
    decreases |steps|
  {
    steps == [] ||
    (!IsRead(steps[0].1) && OneAtATime(steps[1..])) ||
    (|steps| > 1 && steps[0].1.CheckData? && steps[1] == (steps[0].0, AdvanceData(steps[0].1.reader)) &&
     OneAtATime(steps[2..]))
  }

  /** Each check comes right before its advance, each advance right after its check. */
  ghost predicate Sequential(steps: seq<(Side, Event)>) {
    (forall i | 0 <= i < |steps| && steps[i].1.CheckData? ::
       i + 1 < |steps| && steps[i + 1] == (steps[i].0, AdvanceData(steps[i].1.reader))) &&
    (forall i | 0 <= i < |steps| && steps[i].1.AdvanceData? ::
       i > 0 && steps[i - 1].0 == steps[i].0 && steps[i - 1].1.CheckData? && steps[i - 1].1.reader == steps[i].1.reader)
  }

  lemma {:induction false} OneAtATimeIsSequential(steps: seq<(Side, Event)>)
    requires OneAtATime(steps)
    ensures Sequential(steps)
    decreases |steps|
  {
    if steps != [] {
      var k := if IsRead(steps[0].1) then 2 else 1;
      var rest := steps[k..];
      OneAtATimeIsSequential(rest);
      forall i | k <= i < |steps| ensures steps[i] == rest[i - k] {}
    }
  }

  lemma {:induction false} OneAtATimeOn(steps: seq<(Side, Event)>, more: seq<(Side, Event)>)
    requires OneAtATime(steps) && OneAtATime(more)
    ensures OneAtATime(steps + more)
    decreases |steps|
  {
    if steps == [] {
      assert steps + more == more;
    } else if !IsRead(steps[0].1) {
      OneAtATimeOn(steps[1..], more);
      assert (steps + more)[1..] == steps[1..] + more;
    } else {
      OneAtATimeOn(steps[2..], more);
      assert (steps + more)[2..] == steps[2..] + more;
    }
  }

  /** Some run whose data handlers come one after the other leads here. */
  ghost predicate Reachable(keyA: nat, keyB: nat, w: World) {
    exists steps :: Reaches(Start(keyA, keyB), steps, w) && OneAtATime(steps)
  }

  lemma StepFirst(w: World, x: (Side, Event), mid: World, more: seq<(Side, Event)>, end: World)
    requires Ordered(w.At(x.0)) && Possible(w, x.0, x.1) && mid == Next(w, x.0, x.1) && Reaches(mid, more, end)
    ensures Reaches(w, [x] + more, end)
  {
    assert ([x] + more)[1..] == more;
  }

  /** The state after the first step: whatever is reached from there is reached with that step in front. */
  lemma FirstStep(w: World, steps: seq<(Side, Event)>, w': World) returns (mid: World)
    requires Reaches(w, steps, w') && steps != []
    ensures Reaches(mid, steps[1..], w')
    ensures forall more, end | Reaches(mid, more, end) :: Reaches(w, [steps[0]] + more, end)
  {
    mid := Next(w, steps[0].0, steps[0].1);
    forall more, end | Reaches(mid, more, end) ensures Reaches(w, [steps[0]] + more, end) {
      StepFirst(w, steps[0], mid, more, end);
    }
  }

  lemma {:induction false} ReachesOn(w: World, steps: seq<(Side, Event)>, w': World, more: seq<(Side, Event)>, end: World)
    requires Reaches(w, steps, w') && Reaches(w', more, end)
    ensures Reaches(w, steps + more, end)
    decreases |steps|
  {
    if steps == [] {
      assert steps + more == more;
    } else {
      var first, rest := steps[0], steps[1..];
      Sequences.FirstOfMany(first, rest, more);
      assert steps == [first] + rest;
      var mid := FirstStep(w, steps, w');
      ReachesOn(mid, rest, w', more, end);
    }
  }

  lemma ReachableOn(keyA: nat, keyB: nat, w: World, more: seq<(Side, Event)>, w': World)
    requires Reachable(keyA, keyB, w) && Reaches(w, more, w') && OneAtATime(more)
    ensures Reachable(keyA, keyB, w')
  {
    var steps :| Reaches(Start(keyA, keyB), steps, w) && OneAtATime(steps);
    ReachesOn(Start(keyA, keyB), steps, w, more, w');
    OneAtATimeOn(steps, more);
  }

  lemma OneStep(w: World, s: Side, e: Event)
    requires Ordered(w.At(s)) && Possible(w, s, e)
    ensures Reaches(w, [(s, e)] + [], Next(w, s, e))
  {
    var w' := Next(w, s, e);
    assert Reaches(w', [], w');
    StepFirst(w, (s, e), w', [], w');
  }

  /** w' is w after the step: the node that took it, its peer, and what was sent. */
  ghost predicate Took(w: World, s: Side, n': Node, out: set<Packet>, w': World) {
    w'.At(s) == n' && w'.At(Other(s)) == w.At(Other(s)) &&
    w'.Inbox(s) == w.Inbox(s) && w'.Inbox(Other(s)) == w.Inbox(Other(s)) + out
  }

  lemma NextTook(w: World, s: Side, e: Event)
    requires Ordered(w.At(s)) && CanStep(w.At(s), w.Inbox(s), e)
    ensures var (n', out) := Act(w.At(s), w.At(Other(s)).kp, w.Inbox(s), e); Took(w, s, n', out, Next(w, s, e))
  {
  }

  lemma StepTakes(keyA: nat, keyB: nat, w: World, s: Side, e: Event) returns (w': World)
    requires Reachable(keyA, keyB, w) && Ordered(w.At(s)) && CanStep(w.At(s), w.Inbox(s), e) && !IsRead(e)
    ensures Reachable(keyA, keyB, w')
    ensures var (n', out) := Act(w.At(s), w.At(Other(s)).kp, w.Inbox(s), e); Took(w, s, n', out, w')
  {
    NextTook(w, s, e);
    OneStep(w, s, e);
    w' := Next(w, s, e);
    ReachableOn(keyA, keyB, w, [(s, e)] + [], w');
  }

  /** The step of a node, without the world around it. */
  ghost predicate Acts(n: Node, peer: nat, inbox: set<Packet>, e: Event, n': Node, out: set<Packet>) {
    Ordered(n) && CanStep(n, inbox, e) && !IsRead(e) && Act(n, peer, inbox, e) == (n', out)
  }

  lemma StepActs(keyA: nat, keyB: nat, w: World, s: Side, e: Event, n': Node, out: set<Packet>) returns (w': World)
    requires Reachable(keyA, keyB, w) && Acts(w.At(s), w.At(Other(s)).kp, w.Inbox(s), e, n', out)
    ensures Reachable(keyA, keyB, w') && Took(w, s, n', out, w')
  {
    w' := StepTakes(keyA, keyB, w, s, e);
  }

  lemma TwoSteps(keyA: nat, keyB: nat, w: World, s: Side, d: Event, n1: Node, out1: set<Packet>,
                 e: Event, n2: Node, out2: set<Packet>) returns (w': World)
    requires Reachable(keyA, keyB, w) && Acts(w.At(s), w.At(Other(s)).kp, w.Inbox(s), d, n1, out1)
    requires Acts(n1, w.At(Other(s)).kp, w.Inbox(s), e, n2, out2)
    ensures Reachable(keyA, keyB, w') && Took(w, s, n2, out1 + out2, w')
  {
    var w1 := StepTakes(keyA, keyB, w, s, d);
    w' := StepTakes(keyA, keyB, w1, s, e);
  }

  // ---------------------------------------------------------------- a handshake

  lemma OfferedIsOrdered(n: Node, peer: nat, eph: nat)
    requires Ordered(n) && n.tables.idCounter + 1 < TWO32
    ensures Ordered(Offered(n, peer, eph))
  {
  }

  lemma KeptPendingIsOrdered(n: Node, peer: nat, id: u32, now: int)
    requires Ordered(n) && id in n.flights && n.flights[id].Initiating?
    ensures id in n.tables.drafts && Ordered(PendingKept(n, peer, id, now).0)
  {
  }

  lemma InitiationActs(n: Node, peer: nat, inbox: set<Packet>, eph: nat, now: int, n': Node, init: InitPacket)
    requires Ordered(n) && Initiates(n, peer, eph, now, n', init)
    ensures Acts(n, peer, inbox, BeginInitiate(eph), Offered(n, peer, eph), {})
    ensures Acts(Offered(n, peer, eph), peer, inbox, KeepPending(init.sender, now), n', {Init(init)}) && Ordered(n')
  {
    OfferedIsOrdered(n, peer, eph);
    KeptPendingIsOrdered(Offered(n, peer, eph), peer, init.sender, now);
  }

  /** A whole initiation by one side. */
  lemma Initiation(keyA: nat, keyB: nat, w: World, s: Side, eph: nat, now: int, n': Node, init: InitPacket)
      returns (w': World)
    requires Reachable(keyA, keyB, w) && Ordered(w.At(s))
    requires Initiates(w.At(s), w.At(Other(s)).kp, eph, now, n', init)
    ensures Reachable(keyA, keyB, w') && Took(w, s, n', {Init(init)}, w') && Ordered(n')
  {
    var n1 := Offered(w.At(s), w.At(Other(s)).kp, eph);
    InitiationActs(w.At(s), w.At(Other(s)).kp, w.Inbox(s), eph, now, n', init);
    w' := TwoSteps(keyA, keyB, w, s, BeginInitiate(eph), n1, {}, KeepPending(init.sender, now), n', {Init(init)});
  }

  lemma AnsweringIsOrdered(n: Node, init: InitPacket, eph: nat)
    requires Ordered(n) && n.tables.idCounter + 1 < TWO32
    ensures Ordered(Answering(n, init, eph))
  {
  }

  lemma AnswerKeptIsOrdered(n: Node, id: u32)
    requires Ordered(n) && id in n.flights && n.flights[id].Responding?
    ensures id in n.tables.drafts && Ordered(AnswerKept(n, id).0)
    ensures var n' := AnswerKept(n, id).0; id in n'.accepted && n'.accepted[id] == [] && n'.readers == n.readers
  {
  }

  lemma AnsweringActs(n: Node, peer: nat, inbox: set<Packet>, init: InitPacket, eph: nat)
    requires Ordered(n) && Init(init) in inbox && n.tables.idCounter + 1 < TWO32
    ensures Acts(n, peer, inbox, BeginRespond(init, eph), Answering(n, init, eph), {})
    ensures Ordered(Answering(n, init, eph)) && Answering(n, init, eph).readers == n.readers
  {
    AnsweringIsOrdered(n, init, eph);
    AnsweringReads(n, init, eph);
  }

  lemma AnswerKeptActs(n: Node, peer: nat, inbox: set<Packet>, id: u32, n': Node, out: set<Packet>)
    requires Ordered(n) && id in n.tables.drafts && id in n.flights && n.flights[id].Responding?
    requires AnswerKept(n, id) == (n', out)
    ensures Acts(n, peer, inbox, FinishRespond(id), n', out) && Ordered(n')
    ensures id in n'.accepted && n'.accepted[id] == [] && n'.readers == n.readers
  {
    AnswerKeptIsOrdered(n, id);
  }

  /** A whole answer. */
  lemma Response(keyA: nat, keyB: nat, w: World, s: Side, init: InitPacket, eph: nat, n': Node, resp: RespPacket)
      returns (w': World)
    requires Reachable(keyA, keyB, w) && Ordered(w.At(s)) && Init(init) in w.Inbox(s)
    requires Responds(w.At(s), init, eph, n', resp)
    ensures Reachable(keyA, keyB, w') && Took(w, s, n', {Resp(resp)}, w') && Ordered(n')
    ensures resp.sender in n'.accepted && n'.accepted[resp.sender] == [] && n'.readers == w.At(s).readers
  {
    var n1 := Answering(w.At(s), init, eph);
    AnsweringActs(w.At(s), w.At(Other(s)).kp, w.Inbox(s), init, eph);
    AnswerKeptActs(n1, w.At(Other(s)).kp, w.Inbox(s), resp.sender, n', {Resp(resp)});
    w' := TwoSteps(keyA, keyB, w, s, BeginRespond(init, eph), n1, {}, FinishRespond(resp.sender), n', {Resp(resp)});
  }

  lemma AnsweringReads(n: Node, init: InitPacket, eph: nat)
    requires n.tables.idCounter + 1 < TWO32
    ensures Answering(n, init, eph).readers == n.readers
  {
  }

  lemma TakenIsOrdered(n: Node, resp: RespPacket)
    requires Ordered(n)
    ensures Ordered(OfferTaken(n, resp))
  {
  }

  lemma KeptIsOrdered(n: Node, id: u32, peer: Term, receiverID: u32, keys: (Term, Term))
    requires Ordered(n) && id in n.tables.drafts
    ensures Ordered(Kept(n, id, peer, receiverID, keys))
  {
  }

  lemma CompletedIsOrdered(n: Node, id: u32)
    requires Ordered(n) && id in n.flights && n.flights[id].Completing?
    ensures id in n.tables.drafts && Ordered(Completed(n, id))
  {
    var f := n.flights[id];
    var (i, ok) := Noise.Read2(f.p.hs, f.resp.m2);
    if ok { KeptIsOrdered(n, id, f.p.peer, f.resp.sender, Noise.TransportKeys(i).value); }
  }

  /** A whole completion. */
  lemma Completion(keyA: nat, keyB: nat, w: World, s: Side, resp: RespPacket, n': Node) returns (w': World)
    requires Reachable(keyA, keyB, w) && Ordered(w.At(s)) && Resp(resp) in w.Inbox(s) && Completes(w.At(s), resp, n')
    ensures Reachable(keyA, keyB, w') && Took(w, s, n', {}, w') && Ordered(n')
  {
    TakenIsOrdered(w.At(s), resp);
    var w1 := StepTakes(keyA, keyB, w, s, TakeOffer(resp));
    CompletedIsOrdered(w1.At(s), resp.receiver);
    w' := StepTakes(keyA, keyB, w1, s, FinishInitiate(resp.receiver));
  }

  // ---------------------------------------------------------------- sending

  function BoxOf(est: Established, c: u64): DataPacket {
    DataPacket(est.receiverID, c, Ciphertext(est.ch.sendKey, c, []))
  }

  /** Empty packets under all counters below k lie on the wire to the other side. */
  ghost predicate Posted(inbox: set<Packet>, id: u32, est: Established, k: nat) {
    forall c: u64 | c < k :: Data(BoxOf(est, c), id) in inbox
  }

  lemma SealingActs(n: Node, peer: nat, inbox: set<Packet>, id: u32, n': Node)
    requires Ordered(n) && id in n.channels && n.channels[id].ch.counter + 1 < TWO64 && n' == Sealing(n, id, []).0
    ensures var est := n.channels[id];
            Acts(n, peer, inbox, Send(id, []), n', {Data(BoxOf(est, est.ch.counter), id)}) && Ordered(n') &&
            id in n'.channels && n'.channels[id] == est.(ch := est.ch.(counter := est.ch.counter + 1))
  {
  }

  /** The session has sealed k packets and is as it was otherwise. */
  ghost predicate SealedBy(est: Established, k: nat, est': Established) {
    k < TWO64 && est' == est.(ch := est.ch.(counter := k))
  }

  /** One more empty packet. */
  lemma SendOne(keyA: nat, keyB: nat, w: World, s: Side, id: u32) returns (w': World)
    requires Reachable(keyA, keyB, w) && Ordered(w.At(s)) && id in w.At(s).channels
    requires w.At(s).channels[id].ch.counter + 1 < TWO64
    ensures Reachable(keyA, keyB, w') && Ordered(w'.At(s)) && w'.At(Other(s)) == w.At(Other(s))
    ensures var est := w.At(s).channels[id];
            id in w'.At(s).channels && w'.At(s).channels[id] == est.(ch := est.ch.(counter := est.ch.counter + 1)) &&
            w'.Inbox(Other(s)) == w.Inbox(Other(s)) + {Data(BoxOf(est, est.ch.counter), id)}
  {
    var est, n' := w.At(s).channels[id], Sealing(w.At(s), id, []).0;
    SealingActs(w.At(s), w.At(Other(s)).kp, w.Inbox(s), id, n');
    w' := StepActs(keyA, keyB, w, s, Send(id, []), n', {Data(BoxOf(est, est.ch.counter), id)});
  }

  lemma PostedOneMore(inbox: set<Packet>, id: u32, est: Established, k: nat, est': Established)
    requires Posted(inbox, id, est, k) && SealedBy(est, k, est')
    ensures Posted(inbox + {Data(BoxOf(est', est'.ch.counter), id)}, id, est, k + 1)
  {
    assert BoxOf(est', k) == BoxOf(est, k);
  }

  lemma {:induction false} SendMany(keyA: nat, keyB: nat, w: World, s: Side, id: u32, est: Established, k: nat)
      returns (w': World)
    requires Reachable(keyA, keyB, w) && Ordered(w.At(s)) && id in w.At(s).channels && k + 1 < TWO64
    requires w.At(s).channels[id] == est && est.ch.counter == 0
    ensures Reachable(keyA, keyB, w') && Ordered(w'.At(s)) && w'.At(Other(s)) == w.At(Other(s))
    ensures id in w'.At(s).channels && SealedBy(est, k, w'.At(s).channels[id])
    ensures Posted(w'.Inbox(Other(s)), id, est, k)
    decreases k
  {
    if k == 0 { return w; }
    var w1 := SendMany(keyA, keyB, w, s, id, est, k - 1);
    w' := SendOne(keyA, keyB, w1, s, id);
    PostedOneMore(w1.Inbox(Other(s)), id, est, k - 1, w1.At(s).channels[id]);
  }

  // ---------------------------------------------------------------- delivering

  lemma DeliveredIsOrdered(n: Node, reader: nat)
    requires Ordered(n) && reader in n.readers
    ensures Ordered(Delivered(n, reader))
  {
  }

  /** The node after one handler delivered a packet with this counter, with nothing in between. */
  ghost predicate DeliveredOne(n: Node, id: u32, c: u64, n': Node) {
    id in n.channels && id in n.accepted && id in n'.channels && id in n'.accepted && n'.readers == map[] &&
    n'.accepted[id] == n.accepted[id] + [c] &&
    n'.channels[id] == n.channels[id].(ch := n.channels[id].ch.(window := Advanced(n.channels[id].ch.window, c)))
  }

  lemma CheckAndAdvance(n: Node, d: DataPacket, via: u32)
    requires Ordered(n) && n.readers == map[] && d.receiver in n.channels
    requires Unsealed(n.channels[d.receiver].ch, d.counter, d.box).Ok?
    ensures var n1 := Opened(n, 0, d, via);
            Ordered(n1) && 0 in n1.readers && Ordered(Delivered(n1, 0)) &&
            DeliveredOne(n, d.receiver, d.counter, Delivered(n1, 0))
  {
    var n1 := Opened(n, 0, d, via);
    DeliveredIsOrdered(n1, 0);
    assert n1.readers - {0} == map[];
  }

  lemma Delivery(keyA: nat, keyB: nat, w: World, s: Side, d: DataPacket, via: u32) returns (w': World)
    requires Reachable(keyA, keyB, w) && Ordered(w.At(s)) && w.At(s).readers == map[] && Data(d, via) in w.Inbox(s)
    requires d.receiver in w.At(s).channels && Unsealed(w.At(s).channels[d.receiver].ch, d.counter, d.box).Ok?
    ensures Reachable(keyA, keyB, w') && Ordered(w'.At(s)) && w'.Inbox(s) == w.Inbox(s)
    ensures DeliveredOne(w.At(s), d.receiver, d.counter, w'.At(s))
  {
    var e1, e2 := CheckData(0, d, via), AdvanceData(0);
    CheckAndAdvance(w.At(s), d, via);
    NextTook(w, s, e1);
    var w1 := Next(w, s, e1);
    NextTook(w1, s, e2);
    w' := Next(w1, s, e2);
    OneStep(w1, s, e2);
    StepFirst(w, (s, e1), w1, [(s, e2)] + [], w');
    assert ([(s, e1)] + ([(s, e2)] + []))[2..] == [];
    ReachableOn(keyA, keyB, w, [(s, e1)] + ([(s, e2)] + []), w');
  }

  // ---------------------------------------------------------------- the run

  lemma NewNodeIsOrdered(kp: nat)
    ensures Ordered(NewNode(kp))
  {
  }

  lemma StartIsReachable(keyA: nat, keyB: nat)
    ensures Reachable(keyA, keyB, Start(keyA, keyB))
  {
    var none: seq<(Side, Event)> := [];
    assert Reaches(Start(keyA, keyB), none, Start(keyA, keyB)) && OneAtATime(none);
  }

  /** A session of a that b receives on, with nothing sent and nothing delivered. */
  ghost predicate Connected(w: World, id: u32, other: u32, k1: Term, k2: Term) {
    Ordered(w.a) && Ordered(w.b) && id in w.a.channels && other in w.b.channels && other in w.b.accepted &&
    w.a.channels[id] == Established(other, NewChannel(k1, k2)) &&
    w.b.channels[other] == Established(id, NewChannel(k2, k1)) &&
    w.b.accepted[other] == [] && w.b.readers == map[]
  }

  lemma Handshake(keyA: nat, keyB: nat) returns (w: World, id: u32, other: u32, k1: Term, k2: Term)
    ensures Reachable(keyA, keyB, w) && Connected(w, id, other, k1, k2)
  {
    var w0 := Start(keyA, keyB);
    StartIsReachable(keyA, keyB);
    NewNodeIsOrdered(keyA);
    NewNodeIsOrdered(keyB);
    var a1, init := InitiationStands(w0.a, keyB, 1, 0);
    var w1 := Initiation(keyA, keyB, w0, A, 1, 0, a1, init);
    var b1, resp, r := AnswerStands(w1.b, init, 2, a1.tables.pending[init.sender].hs, keyA, 1);
    var w2 := Response(keyA, keyB, w1, B, init, 2, b1, resp);
    var a2 := CompletionStands(w2.a, resp, 1, init.m1, keyB, r, 2);
    w := Completion(keyA, keyB, w2, A, resp, a2);
    id, other := init.sender, resp.sender;
    k2, k1 := Noise.TransportKeys(r).value.0, Noise.TransportKeys(r).value.1;
  }

  lemma OpensFor(n: Node, id: u32, est: Established, c: u64)
    requires est.receiverID in n.channels && n.channels[est.receiverID].ch.recvKey == est.ch.sendKey
    requires Accepts(n.channels[est.receiverID].ch.window, c)
    ensures Unsealed(n.channels[est.receiverID].ch, BoxOf(est, c).counter, BoxOf(est, c).box).Ok?
  {
  }

  /** One more delivery of the counter c on the session. */
  lemma DeliverCounter(keyA: nat, keyB: nat, w: World, id: u32, est: Established, c: u64) returns (w': World)
    requires Reachable(keyA, keyB, w) && Ordered(w.b) && w.b.readers == map[] && Data(BoxOf(est, c), id) in w.toB
    requires est.receiverID in w.b.channels && w.b.channels[est.receiverID].ch.recvKey == est.ch.sendKey
    requires Accepts(w.b.channels[est.receiverID].ch.window, c)
    ensures Reachable(keyA, keyB, w') && Ordered(w'.b) && w'.toB == w.toB
    ensures DeliveredOne(w.b, est.receiverID, c, w'.b)
  {
    OpensFor(w.b, id, est, c);
    w' := Delivery(keyA, keyB, w, B, BoxOf(est, c), id);
  }

  /** The session of b after the counters of the list were delivered on it, one after the other. */
  ghost predicate HasDelivered(w: World, other: u32, est: Established, window: Window, log: seq<u64>) {
    Ordered(w.b) && w.b.readers == map[] && other in w.b.channels && other in w.b.accepted && est.receiverID == other &&
    w.b.channels[other].ch.recvKey == est.ch.sendKey && w.b.channels[other].ch.window == window &&
    w.b.accepted[other] == log
  }

  lemma DeliverNext(keyA: nat, keyB: nat, w: World, id: u32, other: u32, est: Established, window: Window,
                    log: seq<u64>, c: u64, next: Window) returns (w': World)
    requires Reachable(keyA, keyB, w) && HasDelivered(w, other, est, window, log)
    requires Data(BoxOf(est, c), id) in w.toB && Accepts(window, c) && next == Advanced(window, c)
    ensures Reachable(keyA, keyB, w') && HasDelivered(w', other, est, next, log + [c]) && w'.toB == w.toB
  {
    w' := DeliverCounter(keyA, keyB, w, id, est, c);
  }

  lemma DeliverTwo(keyA: nat, keyB: nat, w: World, id: u32, other: u32, est: Established, window: Window,
                   log: seq<u64>, c: u64, x: Window, d: u64, y: Window) returns (w': World)
    requires Reachable(keyA, keyB, w) && HasDelivered(w, other, est, window, log)
    requires Data(BoxOf(est, c), id) in w.toB && Data(BoxOf(est, d), id) in w.toB
    requires Accepts(window, c) && x == Advanced(window, c) && Accepts(x, d) && y == Advanced(x, d)
    ensures Reachable(keyA, keyB, w') && HasDelivered(w', other, est, y, log + [c] + [d]) && w'.toB == w.toB
  {
    var w1 := DeliverNext(keyA, keyB, w, id, other, est, window, log, c, x);
    w' := DeliverNext(keyA, keyB, w1, id, other, est, x, log + [c], d, y);
  }

  lemma LogOf(c: u64, d: u64, log: seq<u64>)
    requires log == []
    ensures log + [c] + [d] + [c] == [c, d, c]
  {
  }

  lemma LogRead(w: World, other: u32, est: Established, window: Window, log: seq<u64>)
    requires HasDelivered(w, other, est, window, log)
    ensures other in w.b.accepted && w.b.accepted[other] == log
  {
  }

  lemma SlideOfOnePasses()
    ensures var c: u64, d: u64 := 2047, 2048;
            Accepts(Fresh(), c) && Accepts(Advanced(Fresh(), c), d) && Accepts(Advanced(Advanced(Fresh(), c), d), c)
  {
    var none: seq<u64>, c: u64, d: u64 := [], 2047, 2048;
    EarlyCountersAgree(none);
    NewestIsAccepted([c], d);
    FirstOfRun(c);
    SlideOfOneForgets();
    RunOfTwo(Fresh(), c, d);
  }

  lemma FirstOfRun(c: u64)
    ensures Run(Fresh(), [c]) == Advanced(Fresh(), c)
  {
    var one: seq<u64> := [c];
    assert one[..0] == [];
  }

  lemma NothingDelivered(w: World, id: u32, other: u32, k1: Term, k2: Term)
    requires Connected(w, id, other, k1, k2)
    ensures HasDelivered(w, other, w.a.channels[id], Fresh(), [])
  {
  }

  lemma SequentialRun(keyA: nat, keyB: nat, w: World)
    requires Reachable(keyA, keyB, w)
    ensures exists steps :: Reaches(Start(keyA, keyB), steps, w) && Sequential(steps)
  {
    var steps :| Reaches(Start(keyA, keyB), steps, w) && OneAtATime(steps);
    OneAtATimeIsSequential(steps);
  }

  /** The packets of both counters were sent and nothing was delivered. */
  ghost predicate Ready(w: World, id: u32, other: u32, est: Established, c: u64, d: u64) {
    HasDelivered(w, other, est, Fresh(), []) && Data(BoxOf(est, c), id) in w.toB && Data(BoxOf(est, d), id) in w.toB
  }

  lemma BothSent(keyA: nat, keyB: nat, c: u64, d: u64) returns (w: World, id: u32, other: u32, est: Established)
    requires c < d && d + 2 < TWO64
    ensures Reachable(keyA, keyB, w) && Ready(w, id, other, est, c, d)
  {
    var w0, k1, k2;
    w0, id, other, k1, k2 := Handshake(keyA, keyB);
    est := w0.a.channels[id];
    NothingDelivered(w0, id, other, k1, k2);
    w := SendMany(keyA, keyB, w0, A, id, est, d + 1);
    assert w.b == w0.b && w.toB == w.Inbox(Other(A));
  }

  /** With any two keys some run, in which every data handler finishes before the next one starts, delivers the packet
      of counter 2047 twice on one session: before and after the packet of counter 2048, whose slide of one makes the
      window forget it. */
  lemma OnePacketIsDeliveredTwice(keyA: nat, keyB: nat)
    ensures exists steps, w, id :: Reaches(Start(keyA, keyB), steps, w) && Sequential(steps) &&
                                   id in w.b.accepted && w.b.accepted[id] == [2047, 2048, 2047]
  {
    var c: u64, d: u64 := 2047, 2048;
    var w1, id, other, est := BothSent(keyA, keyB, c, d);
    SlideOfOnePasses();
    var none: seq<u64>, x := [], Advanced(Fresh(), c);
    var y := Advanced(x, d);
    var w2 := DeliverTwo(keyA, keyB, w1, id, other, est, Fresh(), none, c, x, d, y);
    var z := Advanced(y, c);
    var w3 := DeliverNext(keyA, keyB, w2, id, other, est, y, none + [c] + [d], c, z);
    LogOf(c, d, none);
    LogRead(w3, other, est, z, none + [c] + [d] + [c]);
    SequentialRun(keyA, keyB, w3);
  }
}
