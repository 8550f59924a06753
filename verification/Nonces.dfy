/** No key and counter are ever used for two packets, over all sessions of both engines. */
module Nonces {
  import opened Words
  import opened Crypto
  import opened Tunnel
  import Noise

  /** An id of a side was drawn for an offer or an answer with this ephemeral. */
  ghost predicate Drew(n: Node, id: u32, ephemeral: nat) {
    (id in n.offers && n.offers[id].ephemeral == ephemeral) || (id in n.answers && n.answers[id].ephemeral == ephemeral)
  }

  /** All ephemeral secrets ever drawn by the two engines are different. */
  ghost predicate FreshEphemerals(w: World) {
    forall s: Side, t: Side, i: u32, j: u32, e: nat | Drew(w.At(s), i, e) && Drew(w.At(t), j, e) :: s == t && i == j
  }

  /** The answer of a side is one to an offer of the other, as the two engines made them. */
  ghost predicate Exchange(n: Node, id: u32, peer: Node) {
    id in n.answers && n.answers[id].initiatorID in peer.offers &&
    SoundAnswer(n.kp, n.answers, peer.offers, id) &&
    SoundOffer(peer.kp, peer.offers, n.kp, n.answers[id].initiatorID)
  }

  lemma AnswersAreExchanges(n: Node, peer: Node, id: u32)
    requires AnswersSound(n.kp, n.answers, peer.offers) && OffersSound(peer.kp, peer.offers, n.kp) && id in n.answers
    ensures Exchange(n, id, peer)
  {
    assert SoundAnswer(n.kp, n.answers, peer.offers, id);
    assert SoundOffer(peer.kp, peer.offers, n.kp, n.answers[id].initiatorID);
  }

  /** The chaining key of an answer holds the secret of its two ephemerals. */
  lemma ExchangeSecret(n: Node, id: u32, peer: Node) returns (a: Term, b: Term, d: Term)
    requires Exchange(n, id, peer)
    ensures var e := peer.offers[n.answers[id].initiatorID].ephemeral;
            n.answers[id].r.ck == Noise.Chain(a, b, Shared(multiset{n.answers[id].ephemeral, e}), d)
  {
    var ans := n.answers[id];
    var o := peer.offers[ans.initiatorID];
    Noise.ResponderChain(ans.r, n.kp, ans.ephemeral, o.m1, ans.m2);
    a := Shared(multiset{n.kp, o.m1.e.secret});
    b := Shared(multiset{n.kp, ans.r.remoteStatic.secret});
    d := a;
  }

  lemma SameSecretSameDraw(eR: nat, e: nat, eR': nat, e': nat)
    requires multiset{eR, e} == multiset{eR', e'}
    ensures eR == eR' || eR == e'
  {
    assert eR in multiset{eR', e'};
  }

  /** Answers with one chaining key share an ephemeral, or one's answer ephemeral is the other's offer ephemeral. */
  lemma EqualChainsShareADraw(n: Node, i: u32, peer: Node, m: Node, j: u32, other: Node)
    requires Exchange(n, i, peer) && Exchange(m, j, other) && n.answers[i].r.ck == m.answers[j].r.ck
    ensures n.answers[i].ephemeral == m.answers[j].ephemeral ||
            n.answers[i].ephemeral == other.offers[m.answers[j].initiatorID].ephemeral
  {
    var a, b, d := ExchangeSecret(n, i, peer);
    var a', b', d' := ExchangeSecret(m, j, other);
    var eR, eR' := n.answers[i].ephemeral, m.answers[j].ephemeral;
    var e, e' := peer.offers[n.answers[i].initiatorID].ephemeral, other.offers[m.answers[j].initiatorID].ephemeral;
    Noise.ChainInjective(a, b, Shared(multiset{eR, e}), d, a', b', Shared(multiset{eR', e'}), d');
    SameSecretSameDraw(eR, e, eR', e');
  }

  /** An answer of one engine drew no ephemeral that any other answer or offer did. */
  lemma DrawnOnce(w: World, s: Side, i: u32, t: Side, j: u32, k: u32)
    requires FreshEphemerals(w) && w.At(Other(t)).offers.Keys !! w.At(Other(t)).answers.Keys
    requires i in w.At(s).answers && j in w.At(t).answers && k in w.At(Other(t)).offers
    requires w.At(s).answers[i].ephemeral == w.At(t).answers[j].ephemeral ||
             w.At(s).answers[i].ephemeral == w.At(Other(t)).offers[k].ephemeral
    ensures s == t && i == j
  {
    var eR := w.At(s).answers[i].ephemeral;
    assert Drew(w.At(s), i, eR);
    if eR == w.At(t).answers[j].ephemeral {
      assert Drew(w.At(t), j, eR);
    } else {
      assert Drew(w.At(Other(t)), k, eR);
    }
  }

  /** Equal chaining keys come from one answer. */
  lemma OneAnswerPerChain(w: World, s: Side, i: u32, t: Side, j: u32)
    requires FreshEphemerals(w) && w.At(Other(t)).offers.Keys !! w.At(Other(t)).answers.Keys
    requires Exchange(w.At(s), i, w.At(Other(s))) && Exchange(w.At(t), j, w.At(Other(t)))
    requires w.At(s).answers[i].r.ck == w.At(t).answers[j].r.ck
    ensures s == t && i == j
  {
    EqualChainsShareADraw(w.At(s), i, w.At(Other(s)), w.At(t), j, w.At(Other(t)));
    DrawnOnce(w, s, i, t, j, w.At(t).answers[j].initiatorID);
  }

  // ---------------------------------------------------------------- the keys of sessions

  /** The side and the id of the answer that a session stems from. */
  function Maker(w: World, s: Side, id: u32): (Side, u32)
    requires id in w.At(s).channels
  {
    if id in w.At(s).answers then (s, id) else (Other(s), w.At(s).channels[id].receiverID)
  }

  /** Responders seal under the second key of the answer's chain, initiators under the first. */
  ghost predicate KeyFits(w: World, s: Side, id: u32) {
    id in w.At(s).channels &&
    var (t, a) := Maker(w, s, id);
    Exchange(w.At(t), a, w.At(Other(t))) &&
    var keys := Split(w.At(t).answers[a].r.ck);
    w.At(s).channels[id].ch.sendKey == (if t == s then keys.1 else keys.0) &&
    (t != s ==> a in w.At(t).channels && w.At(t).channels[a].receiverID == id)
  }

  lemma AnswerKeys(n: Node, id: u32, peer: Node)
    requires Exchange(n, id, peer)
    ensures n.answers[id].keys == (Split(n.answers[id].r.ck).1, Split(n.answers[id].r.ck).0)
  {
    var ans := n.answers[id];
    Noise.ResponderChain(ans.r, n.kp, ans.ephemeral, peer.offers[ans.initiatorID].m1, ans.m2);
  }

  lemma ResponderKey(n: Node, peer: Node, id: u32)
    requires ChannelsInv(n, peer) && AnswersSound(n.kp, n.answers, peer.offers) && OffersSound(peer.kp, peer.offers, n.kp)
    requires id in n.channels && id in n.answers
    ensures Exchange(n, id, peer) && n.channels[id].ch.sendKey == Split(n.answers[id].r.ck).1
  {
    AnswersAreExchanges(n, peer, id);
    AnswerKeys(n, id, peer);
  }

  lemma InitiatorKey(n: Node, peer: Node, id: u32)
    requires ChannelsInv(n, peer) && ChannelsInv(peer, n) && id in n.channels && id !in n.answers
    requires AnswersSound(peer.kp, peer.answers, n.offers) && OffersSound(n.kp, n.offers, peer.kp)
    ensures var a := n.channels[id].receiverID;
            a in peer.channels && peer.channels[a].receiverID == id && Exchange(peer, a, n) &&
            n.channels[id].ch.sendKey == Split(peer.answers[a].r.ck).0
  {
    var a := n.channels[id].receiverID;
    assert Mirrored(n.channels, id, peer.channels);
    AnswersAreExchanges(peer, n, a);
    AnswerKeys(peer, a, n);
  }

  lemma SessionKeyFits(w: World, s: Side, id: u32)
    requires Holds(w) && id in w.At(s).channels
    ensures KeyFits(w, s, id)
  {
    HoldsNames(w, s);
    HoldsNames(w, Other(s));
    if id in w.At(s).answers {
      ResponderKey(w.At(s), w.At(Other(s)), id);
    } else {
      InitiatorKey(w.At(s), w.At(Other(s)), id);
    }
  }

  lemma HoldsNames(w: World, s: Side)
    requires Holds(w)
    ensures var n, peer := w.At(s), w.At(Other(s));
            ChannelsInv(n, peer) && OffersSound(n.kp, n.offers, peer.kp) && AnswersSound(n.kp, n.answers, peer.offers) &&
            n.offers.Keys !! n.answers.Keys
  {
  }

  lemma KeyDeterminesSession(w: World, s: Side, i: u32, t: Side, j: u32)
    requires FreshEphemerals(w) && KeyFits(w, s, i) && KeyFits(w, t, j)
    requires forall x: Side :: w.At(x).offers.Keys !! w.At(x).answers.Keys
    requires w.At(s).channels[i].ch.sendKey == w.At(t).channels[j].ch.sendKey
    ensures s == t && i == j
  {
    var (p, a) := Maker(w, s, i);
    var (q, b) := Maker(w, t, j);
    SplitSeparates(w.At(p).answers[a].r.ck, w.At(q).answers[b].r.ck);
    SplitSeparates(w.At(q).answers[b].r.ck, w.At(p).answers[a].r.ck);
    OneAnswerPerChain(w, p, a, q, b);
  }

  /** One key and one counter seal one packet. */
  ghost predicate SealedOnce(w: World, s: Side, i: u32, c: u64, t: Side, j: u32, d: u64) {
    i in w.At(s).channels && j in w.At(t).channels &&
    (w.At(s).channels[i].ch.sendKey == w.At(t).channels[j].ch.sendKey && c == d ==> (s, i, c) == (t, j, d))
  }

  lemma SealsAreDistinct(w: World, s: Side, i: u32, c: u64, t: Side, j: u32, d: u64)
    requires Holds(w) && FreshEphemerals(w) && i in w.At(s).channels && j in w.At(t).channels
    ensures SealedOnce(w, s, i, c, t, j, d)
  {
    SessionKeyFits(w, s, i);
    SessionKeyFits(w, t, j);
    forall x: Side ensures w.At(x).offers.Keys !! w.At(x).answers.Keys { HoldsNames(w, x); }
    if w.At(s).channels[i].ch.sendKey == w.At(t).channels[j].ch.sendKey { KeyDeterminesSession(w, s, i, t, j); }
  }

  /** In every reachable state of two engines whose ephemeral secrets are all different, two packets sealed under one
      key and one counter, by either side and on any session, are one packet. */
  lemma NoKeyAndCounterTwice(keyA: nat, keyB: nat, steps: seq<(Side, Event)>, w: World,
                             s: Side, i: u32, c: u64, t: Side, j: u32, d: u64)
    requires Reaches(Start(keyA, keyB), steps, w) && FreshEphemerals(w)
    requires (i, c) in w.At(s).sent && (j, d) in w.At(t).sent
    ensures SealedOnce(w, s, i, c, t, j, d)
  {
    StartHolds(keyA, keyB);
    ReachesHolds(Start(keyA, keyB), steps, w);
    SentOnChannel(w, s, i, c);
    SentOnChannel(w, t, j, d);
    SealsAreDistinct(w, s, i, c, t, j, d);
  }

  lemma SentOnChannel(w: World, s: Side, i: u32, c: u64)
    requires Holds(w) && (i, c) in w.At(s).sent
    ensures i in w.At(s).channels
  {
  }
}
