/** The handshake and the data packets against an attacker who controls the network: who reads every message, and
    injects whatever can be built without the secrets of the honest parties. */
module Attacker {
  import opened Words
  import opened Crypto
  import Sessions
  import Noise

  // ---------------------------------------------------------------- what honest parties do

  /** A first message written, a first message read and answered, an answer accepted, a packet sealed in a session
      whose handshake ended in st. */
  datatype Deed =
    | Wrote(i: Noise.State, sI: nat, target: Term, eI: nat, m1: Noise.Msg1)
    | Replied(r: Noise.State, sR: nat, eR: nat, m1: Noise.Msg1, m2: Noise.Msg2)
    | Completed(c: Noise.State, i: Noise.State, sI: nat, target: Term, eI: nat, m1: Noise.Msg1, m2: Noise.Msg2)
    | SealedData(st: Noise.State, counter: u64, packet: seq<int>)

  /** Each deed is one of the code; what an honest party reads may come from the attacker. A session is one of a reply
      or of an accepted answer. */
  ghost predicate Honest(d: Deed, history: set<Deed>) {
    match d
    case Wrote(i, sI, target, eI, m1) => Noise.Sent1(i, sI, target, eI, m1)
    case Replied(r, sR, eR, m1, m2) => Noise.Answered(r, sR, eR, m1, m2)
    case Completed(c, i, sI, target, eI, m1, m2) => Noise.Sent1(i, sI, target, eI, m1) && Noise.Read2(i, m2) == (c, true)
    case SealedData(st, _, _) =>
      Noise.TransportKeys(st).Ok? &&
      exists a | a in history :: if st.isInitiator then a.Completed? && a.c == st else a.Replied? && a.r == st
  }

  ghost predicate HonestHistory(history: set<Deed>) {
    forall d | d in history :: Honest(d, history)
  }

  function SealsOf(d: Deed): set<Term> {
    match d
    case Wrote(_, _, _, _, m1) => if m1.Msg1? then {m1.encStatic, m1.encPayload} else {}
    case Replied(_, _, _, _, m2) => if m2.Msg2? then {m2.encPayload} else {}
    case Completed(_, _, _, _, _, _, _) => {}
    case SealedData(st, counter, packet) =>
      if Noise.TransportKeys(st).Ok? then {Sessions.Ciphertext(Noise.TransportKeys(st).value.0, counter, packet)} else {}
  }

  // ---------------------------------------------------------------- what the attacker can build

  /** bad: the secrets that are not kept, the attacker's own among them. Every box an honest party sealed was sent. */
  ghost predicate Known(t: Term, history: set<Deed>, bad: set<nat>) {
    match t
    case Text(_) => true
    case Empty => true
    case Payload(_) => true
    case Junk(_) => true
    case Public(_) => true
    case Shared(m) => exists a | a in bad :: a in m
    case Hash(x) => Known(x, history, bad)
    case HashPair(x, y) => Known(x, history, bad) && Known(y, history, bad)
    case Hmac(k, x) => Known(k, history, bad) && Known(x, history, bad)
    case Append(x, _) => Known(x, history, bad)
    case Sealed(k, _, p, ad) =>
      (exists d | d in history :: t in SealsOf(d)) ||
      (Known(k, history, bad) && Known(p, history, bad) && Known(ad, history, bad))
  }

  /** Honest parties seal nothing in a handshake that is not public. */
  lemma SealsHideNothing(d: Deed, box: Term, history: set<Deed>, bad: set<nat>)
    requires Honest(d, history) && box in SealsOf(d)
    ensures box.Sealed? && (box.plain == Empty || box.plain.Public? || box.plain.Payload?)
    ensures Known(box.plain, history, bad)
  {
  }

  /** The attacker gains nothing beyond Known by agreeing on a secret with a key of its own, or by opening a box. */
  lemma KnowledgeIsClosed(history: set<Deed>, bad: set<nat>)
    requires HonestHistory(history)
    ensures forall a, b | a in bad :: ECDH(a, Public(b)).Ok? && Known(ECDH(a, Public(b)).value, history, bad)
    ensures forall key, nonce, box, ad |
              Known(box, history, bad) && Known(key, history, bad) && Open(key, nonce, box, ad).Ok? ::
              Known(Open(key, nonce, box, ad).value, history, bad)
  {
    forall a, b | a in bad ensures Known(ECDH(a, Public(b)).value, history, bad) {
      assert a in multiset{a, b};
    }
    forall key, nonce, box, ad | Known(box, history, bad) && Known(key, history, bad) && Open(key, nonce, box, ad).Ok?
      ensures Known(box.plain, history, bad)
    {
      if d :| d in history && box in SealsOf(d) { SealsHideNothing(d, box, history, bad); }
    }
  }

  /** Whatever an honest party sends, the attacker has. */
  lemma SentIsKnown(d: Deed, history: set<Deed>, bad: set<nat>)
    requires d in history && Honest(d, history)
    ensures d.Wrote? ==> d.m1.Msg1? && Known(d.m1.e, history, bad)
    ensures d.Wrote? ==> Known(d.m1.encStatic, history, bad) && Known(d.m1.encPayload, history, bad)
    ensures d.Replied? ==> d.m2.Msg2? && Known(d.m2.e, history, bad) && Known(d.m2.encPayload, history, bad)
    ensures d.SealedData? ==>
              Known(Sealed(Noise.TransportKeys(d.st).value.0, d.counter, Payload(d.packet), Empty), history, bad)
  {
    match d
    case Wrote(i, sI, target, eI, m1) =>
      FirstTag(i, sI, target, eI, m1);
      assert m1.encStatic in SealsOf(d) && m1.encPayload in SealsOf(d);
    case Replied(_, _, _, _, m2) => assert m2.encPayload in SealsOf(d);
    case Completed(_, _, _, _, _, _, _) =>
    case SealedData(st, counter, packet) =>
      assert Sessions.Ciphertext(Noise.TransportKeys(st).value.0, counter, packet) in SealsOf(d);
  }

  // ---------------------------------------------------------------- what it cannot build

  lemma SecretIsUnknown(a: nat, b: nat, history: set<Deed>, bad: set<nat>)
    requires a !in bad && b !in bad
    ensures !Known(Shared(multiset{a, b}), history, bad)
  {
  }

  /** Whatever is mixed in later, a chain over something unknown stays unknown, with its keys. */
  lemma UnknownStays(ck: Term, secret: Term, history: set<Deed>, bad: set<nat>)
    requires !Known(ck, history, bad) || !Known(secret, history, bad)
    ensures !Known(MixKey(ck, secret).0, history, bad) && !Known(MixKey(ck, secret).1, history, bad)
  {
  }

  lemma SplitStays(ck: Term, history: set<Deed>, bad: set<nat>)
    requires !Known(ck, history, bad)
    ensures !Known(Split(ck).0, history, bad) && !Known(Split(ck).1, history, bad)
  {
  }

  /** A box under a key it does not know is one that somebody sealed. */
  lemma BoxHasAuthor(box: Term, history: set<Deed>, bad: set<nat>) returns (d: Deed)
    requires Known(box, history, bad) && box.Sealed? && !Known(box.key, history, bad)
    ensures d in history && box in SealsOf(d)
  {
    d :| d in history && box in SealsOf(d);
  }

  // ---------------------------------------------------------------- the initiator

  /** The chain behind an answer the initiator accepts, mixed last from its ephemeral and the responder's static key. */
  lemma AcceptedTag(i: Noise.State, sI: nat, sR: nat, eI: nat, m1: Noise.Msg1, m2: Noise.Msg2)
    returns (ck1: Term, ss: Term, ee: Term, ad: Term)
    requires Noise.Sent1(i, sI, Public(sR), eI, m1) && Noise.Read2(i, m2).1
    ensures m2.Msg2? && m2.encPayload.Sealed?
    ensures var se := Shared(multiset{eI, sR});
            var ck3 := MixKey(MixKey(ck1, ss).0, ee).0;
            Noise.Read2(i, m2).0.ck == MixKey(ck3, se).0 &&
            m2.encPayload == Sealed(MixKey(ck3, se).1, 0, m2.encPayload.plain, HashPair(ad, m2.e))
  {
    ck1 := MixKey(Hash(Noise.PROTOCOL_NAME), ECDH(eI, Public(sR)).value).0;
    ss := ECDH(sI, Public(sR)).value;
    ee := ECDH(eI, m2.e).value;
    ad := i.h;
  }

  lemma FirstTag(i: Noise.State, sI: nat, target: Term, eI: nat, m1: Noise.Msg1)
    requires Noise.Sent1(i, sI, target, eI, m1)
    ensures m1.Msg1? && target.Public? && m1.e == Public(eI)
    ensures m1.encStatic.Sealed? && m1.encStatic.plain == Public(sI)
    ensures m1.encStatic.key == MixKey(Hash(Noise.PROTOCOL_NAME), Shared(multiset{eI, target.secret})).1
    ensures m1.encStatic.ad == HashPair(MixHash(HashPair(Hash(Noise.PROTOCOL_NAME), Noise.PROLOGUE), target), m1.e)
    ensures var ck1 := MixKey(Hash(Noise.PROTOCOL_NAME), Shared(multiset{eI, target.secret})).0;
            m1.encPayload.Sealed? && m1.encPayload.plain == Empty &&
            m1.encPayload.key == MixKey(ck1, Shared(multiset{sI, target.secret})).1
    ensures m1.encPayload.ad == HashPair(HashPair(MixHash(HashPair(Hash(Noise.PROTOCOL_NAME), Noise.PROLOGUE), target), m1.e),
                                         m1.encStatic)
  {
  }

  /** The keys of an initiator's session, whoever answered and whatever came in: secret as long as its ephemeral and
      the static key it addressed are. */
  lemma InitiatorKeysAreSecret(i: Noise.State, sI: nat, sR: nat, eI: nat, m1: Noise.Msg1, m2: Noise.Msg2,
                               history: set<Deed>, bad: set<nat>)
    requires Noise.Sent1(i, sI, Public(sR), eI, m1) && Noise.Read2(i, m2).1
    requires eI !in bad && sR !in bad
    ensures var keys := Noise.TransportKeys(Noise.Read2(i, m2).0);
            keys.Ok? && !Known(keys.value.0, history, bad) && !Known(keys.value.1, history, bad)
    ensures !Known(m2.encPayload.key, history, bad)
  {
    var ck1, ss, ee, ad := AcceptedTag(i, sI, sR, eI, m1, m2);
    SecretIsUnknown(eI, sR, history, bad);
    UnknownStays(MixKey(MixKey(ck1, ss).0, ee).0, Shared(multiset{eI, sR}), history, bad);
    SplitStays(Noise.Read2(i, m2).0.ck, history, bad);
  }

  /** The tag of an answer is no box of a first message: its chain is two secrets longer. */
  lemma AnswerIsNoFirst(ck1: Term, ss: Term, ee: Term, se: Term, es': Term, ss': Term)
    ensures MixKey(MixKey(MixKey(ck1, ss).0, ee).0, se).1 != MixKey(MixKey(Hash(Noise.PROTOCOL_NAME), es').0, ss').1
    ensures MixKey(MixKey(MixKey(ck1, ss).0, ee).0, se).1 != MixKey(Hash(Noise.PROTOCOL_NAME), es').1
  {
  }

  /** Among honest parties only a responder seals the tag of an answer. */
  lemma AnswerAuthor(d: Deed, i: Noise.State, sI: nat, sR: nat, eI: nat, m1: Noise.Msg1, m2: Noise.Msg2, history: set<Deed>)
    requires Honest(d, history) && m2.Msg2? && m2.encPayload in SealsOf(d)
    requires Noise.Sent1(i, sI, Public(sR), eI, m1) && Noise.Read2(i, m2).1
    ensures d.Replied?
  {
    var ck1, ss, ee, ad := AcceptedTag(i, sI, sR, eI, m1, m2);
    if d.Wrote? {
      FirstTag(d.i, d.sI, d.target, d.eI, d.m1);
      AnswerIsNoFirst(ck1, ss, ee, Shared(multiset{eI, sR}), Shared(multiset{d.eI, d.target.secret}),
                      Shared(multiset{d.sI, d.target.secret}));
    }
  }

  /** Authentication of the responder: an accepted answer was written by the holder of the addressed static key, in
      reply to this very first message, and both ends share the keys of their sessions, crossed. */
  lemma AcceptedAnswerIsHonest(i: Noise.State, sI: nat, sR: nat, eI: nat, m1: Noise.Msg1, m2: Noise.Msg2,
                               history: set<Deed>, bad: set<nat>)
    requires HonestHistory(history)
    requires Noise.Sent1(i, sI, Public(sR), eI, m1) && Noise.Read2(i, m2).1
    requires eI !in bad && sR !in bad && m2.Msg2? && Known(m2.encPayload, history, bad)
    ensures exists d | d in history :: d.Replied? && d.sR == sR && d.m1 == m1 && d.m2 == m2 &&
                                       Noise.Agreement(Noise.Read2(i, m2).0, d.r) && d.r.remoteStatic == Public(sI)
  {
    InitiatorKeysAreSecret(i, sI, sR, eI, m1, m2, history, bad);
    var d := BoxHasAuthor(m2.encPayload, history, bad);
    AnswerAuthor(d, i, sI, sR, eI, m1, m2, history);
    SameReply(i, sI, sR, eI, m1, m2, d.r, d.sR, d.eR, d.m1, d.m2);
  }

  lemma SameReply(i: Noise.State, sI: nat, sR: nat, eI: nat, m1: Noise.Msg1, m2: Noise.Msg2,
                  r: Noise.State, sR': nat, eR: nat, m1': Noise.Msg1, m2': Noise.Msg2)
    requires Noise.Sent1(i, sI, Public(sR), eI, m1) && Noise.Read2(i, m2).1 && m2.Msg2?
    requires Noise.Answered(r, sR', eR, m1', m2') && m2'.encPayload == m2.encPayload
    ensures sR' == sR && m1' == m1 && m2' == m2
    ensures Noise.Agreement(Noise.Read2(i, m2).0, r) && r.remoteStatic == Public(sI)
  {
    assert m2 == Noise.Msg2(m2.e, m2'.encPayload);
    Noise.AcceptedMeansSameTranscript(i, sI, Public(sR), eI, m1, r, sR', eR, m1', m2', m2.e);
  }

  /** An initiator accepts exactly the answers that the party it addressed wrote to its first message. */
  lemma AnswerAcceptedIff(i: Noise.State, sI: nat, sR: nat, eI: nat, m1: Noise.Msg1, m2: Noise.Msg2,
                          history: set<Deed>, bad: set<nat>)
    requires HonestHistory(history) && Noise.Sent1(i, sI, Public(sR), eI, m1)
    requires eI !in bad && sR !in bad && m2.Msg2? && Known(m2.encPayload, history, bad)
    ensures Noise.Read2(i, m2).1 <==>
            exists d | d in history :: d.Replied? && d.sR == sR && d.m1 == m1 && d.m2 == m2
  {
    if Noise.Read2(i, m2).1 {
      AcceptedAnswerIsHonest(i, sI, sR, eI, m1, m2, history, bad);
    }
    if d :| d in history && d.Replied? && d.sR == sR && d.m1 == m1 && d.m2 == m2 {
      Noise.AcceptedMeansSameTranscript(i, sI, Public(sR), eI, m1, d.r, sR, d.eR, m1, m2, m2.e);
    }
  }

  // ---------------------------------------------------------------- the responder

  /** What the last box of a first message is sealed under and over. */
  ghost predicate OfferBox(box: Term, target: Term, e: Term, encStatic: Term, es: Term, ss: Term) {
    box.Sealed? &&
    box.key == MixKey(MixKey(Hash(Noise.PROTOCOL_NAME), es).0, ss).1 &&
    box.ad == HashPair(HashPair(MixHash(HashPair(Hash(Noise.PROTOCOL_NAME), Noise.PROLOGUE), target), e), encStatic)
  }

  lemma WrittenOffer(i: Noise.State, sI: nat, target: Term, eI: nat, m1: Noise.Msg1)
    requires Noise.Sent1(i, sI, target, eI, m1)
    ensures m1.Msg1? && target.Public? && m1.encPayload.Sealed? && m1.encPayload.plain == Empty
    ensures OfferBox(m1.encPayload, target, m1.e, m1.encStatic,
                     Shared(multiset{eI, target.secret}), Shared(multiset{sI, target.secret}))
  {
    FirstTag(i, sI, target, eI, m1);
  }

  lemma ReadOffer(sR: nat, eR: nat, m1: Noise.Msg1)
    requires Noise.Read1(Noise.Responder(sR, eR), m1).1
    ensures m1.Msg1? && m1.e.Public? && Noise.Read1(Noise.Responder(sR, eR), m1).0.remoteStatic.Public?
    ensures m1.encStatic.Sealed?
    ensures OfferBox(m1.encPayload, Public(sR), m1.e, m1.encStatic, Shared(multiset{sR, m1.e.secret}),
                     Shared(multiset{sR, Noise.Read1(Noise.Responder(sR, eR), m1).0.remoteStatic.secret}))
  {
  }

  lemma StaticIsNoOffer(i: Noise.State, sI: nat, target: Term, eI: nat, m1: Noise.Msg1,
                        target': Term, e: Term, encStatic: Term, es: Term, ss: Term)
    requires Noise.Sent1(i, sI, target, eI, m1) && encStatic.Sealed?
    ensures m1.Msg1? && !OfferBox(m1.encStatic, target', e, encStatic, es, ss)
  {
    FirstTag(i, sI, target, eI, m1);
  }

  lemma OfferSecretIsUnknown(m1: Noise.Msg1, target: Term, es: Term, sR: nat, sI: nat, history: set<Deed>, bad: set<nat>)
    requires m1.Msg1? && OfferBox(m1.encPayload, target, m1.e, m1.encStatic, es, Shared(multiset{sR, sI}))
    requires sI !in bad && sR !in bad
    ensures !Known(m1.encPayload.key, history, bad)
  {
    SecretIsUnknown(sR, sI, history, bad);
    UnknownStays(MixKey(Hash(Noise.PROTOCOL_NAME), es).0, Shared(multiset{sR, sI}), history, bad);
  }

  /** Two readings of one box: the same first message, for the same key, under the same secrets. */
  lemma OfferBoxInjective(m: Noise.Msg1, m': Noise.Msg1, t: Term, t': Term, es: Term, es': Term, ss: Term, ss': Term)
    requires m.Msg1? && m'.Msg1? && m.encPayload == m'.encPayload
    requires OfferBox(m.encPayload, t, m.e, m.encStatic, es, ss) && OfferBox(m'.encPayload, t', m'.e, m'.encStatic, es', ss')
    ensures m == m' && t == t' && ss == ss'
  {
  }

  lemma OfferAuthor(d: Deed, m1: Noise.Msg1, sR: nat, sI: nat, es: Term, history: set<Deed>)
    requires Honest(d, history) && m1.Msg1? && m1.encStatic.Sealed? && m1.encPayload in SealsOf(d)
    requires OfferBox(m1.encPayload, Public(sR), m1.e, m1.encStatic, es, Shared(multiset{sR, sI}))
    ensures d.Wrote? && d.sI == sI && d.target == Public(sR) && d.m1 == m1
  {
    match d
    case Wrote(j, sJ, target, eJ, m) =>
      WrittenOffer(j, sJ, target, eJ, m);
      StaticIsNoOffer(j, sJ, target, eJ, m, Public(sR), m1.e, m1.encStatic, es, Shared(multiset{sR, sI}));
      OfferBoxInjective(m, m1, target, Public(sR), Shared(multiset{eJ, target.secret}), es,
                        Shared(multiset{sJ, target.secret}), Shared(multiset{sR, sI}));
      EcdhCommutes(sJ, sR, sR, sJ);
      EcdhCommutes(sR, sJ, sR, sI);
    case Replied(_, _, _, _, _) =>
    case Completed(_, _, _, _, _, _, _) =>
    case SealedData(_, _, _) =>
  }

  /** Authentication of the initiator: a first message that names an honest peer was written by that peer, for this
      responder. It may have been read before: nothing in it is the responder's. */
  lemma AcceptedOfferIsHonest(sR: nat, eR: nat, sI: nat, m1: Noise.Msg1, history: set<Deed>, bad: set<nat>)
    requires HonestHistory(history)
    requires Noise.Read1(Noise.Responder(sR, eR), m1).1
    requires Noise.Read1(Noise.Responder(sR, eR), m1).0.remoteStatic == Public(sI)
    requires sI !in bad && sR !in bad && m1.Msg1? && Known(m1.encPayload, history, bad)
    ensures exists d | d in history :: d.Wrote? && d.sI == sI && d.target == Public(sR) && d.m1 == m1
  {
    ReadOffer(sR, eR, m1);
    var es := Shared(multiset{sR, m1.e.secret});
    OfferSecretIsUnknown(m1, Public(sR), es, sR, sI, history, bad);
    var d := BoxHasAuthor(m1.encPayload, history, bad);
    OfferAuthor(d, m1, sR, sI, es, history);
  }

  /** A responder accepts a first message in the name of an honest peer exactly when that peer wrote it to the
      responder's key, at any time before and however often it was read. */
  lemma OfferAcceptedIff(sR: nat, eR: nat, sI: nat, m1: Noise.Msg1, history: set<Deed>, bad: set<nat>)
    requires HonestHistory(history)
    requires sI !in bad && sR !in bad && m1.Msg1? && Known(m1.encPayload, history, bad)
    ensures var (r, ok) := Noise.Read1(Noise.Responder(sR, eR), m1);
            ok && r.remoteStatic == Public(sI) <==>
            exists d | d in history :: d.Wrote? && d.sI == sI && d.target == Public(sR) && d.m1 == m1
  {
    var (r, ok) := Noise.Read1(Noise.Responder(sR, eR), m1);
    if ok && r.remoteStatic == Public(sI) { AcceptedOfferIsHonest(sR, eR, sI, m1, history, bad); }
    if d :| d in history && d.Wrote? && d.sI == sI && d.target == Public(sR) && d.m1 == m1 {
      Noise.Message1AcceptedIffAddressed(sI, sR, d.eI, sR, eR);
    }
  }

  // ---------------------------------------------------------------- the packets

  /** Secrets hidden in the first two agreements of a chain stay hidden in the keys at its end. */
  lemma ChainIsUnknown(es: Term, ss: Term, ee: Term, se: Term, history: set<Deed>, bad: set<nat>)
    requires !Known(ss, history, bad)
    ensures !Known(Noise.Chain(es, ss, ee, se), history, bad)
  {
    var ck1 := MixKey(Hash(Noise.PROTOCOL_NAME), es).0;
    UnknownStays(ck1, ss, history, bad);
    UnknownStays(MixKey(ck1, ss).0, ee, history, bad);
    UnknownStays(MixKey(MixKey(ck1, ss).0, ee).0, se, history, bad);
  }

  /** The keys of a responder's session are secret as long as the two static keys are, whoever sent the ephemeral. */
  lemma ResponderKeysAreSecret(r: Noise.State, sR: nat, eR: nat, sI: nat, m1: Noise.Msg1, m2: Noise.Msg2,
                               history: set<Deed>, bad: set<nat>)
    requires Noise.Answered(r, sR, eR, m1, m2) && r.remoteStatic == Public(sI)
    requires sI !in bad && sR !in bad
    ensures var keys := Noise.TransportKeys(r);
            keys.Ok? && !Known(keys.value.0, history, bad) && !Known(keys.value.1, history, bad)
  {
    Noise.ResponderChain(r, sR, eR, m1, m2);
    var e := m1.e.secret;
    SecretIsUnknown(sR, sI, history, bad);
    ChainIsUnknown(Shared(multiset{sR, e}), Shared(multiset{sR, sI}), Shared(multiset{eR, e}), Shared(multiset{sR, e}),
                   history, bad);
    SplitStays(r.ck, history, bad);
  }

  /** A box with nothing beside it is no box of a handshake. */
  lemma DataBoxAuthor(d: Deed, box: Term, history: set<Deed>)
    requires Honest(d, history) && box in SealsOf(d) && box.Sealed? && box.ad == Empty
    ensures d.SealedData?
    ensures box == Sessions.Ciphertext(Noise.TransportKeys(d.st).value.0, d.counter, d.packet)
  {
  }

  /** A key to receive with is a key to send with on the other side of one chain, never on the same side. */
  lemma CrossedKeys(st: Noise.State, me: Noise.State)
    requires Noise.TransportKeys(st).Ok? && Noise.TransportKeys(me).Ok?
    requires Noise.TransportKeys(st).value.0 == Noise.TransportKeys(me).value.1
    ensures st.isInitiator != me.isInitiator && st.ck == me.ck
  {
    SplitSeparates(st.ck, me.ck);
    SplitSeparates(me.ck, st.ck);
    SplitSeparates(me.ck, me.ck);
  }

  /** What opens in a session with secret keys was sealed under that counter by an honest party at the other side of
      the same chain. */
  lemma OpenedWasSealed(me: Noise.State, counter: u64, box: Term, history: set<Deed>, bad: set<nat>) returns (d: Deed)
    requires HonestHistory(history) && Noise.TransportKeys(me).Ok?
    requires !Known(Noise.TransportKeys(me).value.1, history, bad) && Known(box, history, bad)
    requires Open(Noise.TransportKeys(me).value.1, counter, box, Empty).Ok?
    ensures d in history && d.SealedData? && d.counter == counter && box.plain == Payload(d.packet)
    ensures d.st.ck == me.ck && d.st.isInitiator != me.isInitiator
  {
    d := BoxHasAuthor(box, history, bad);
    DataBoxAuthor(d, box, history);
    CrossedKeys(d.st, me);
  }

  /** What opens at an initiator was sealed under that counter in the session of a reply on the same chain. */
  lemma InitiatorOpensOnlySealed(i: Noise.State, sI: nat, sR: nat, eI: nat, m1: Noise.Msg1, m2: Noise.Msg2,
                                 counter: u64, box: Term, history: set<Deed>, bad: set<nat>)
    requires HonestHistory(history)
    requires Noise.Sent1(i, sI, Public(sR), eI, m1) && Noise.Read2(i, m2).1
    requires eI !in bad && sR !in bad && Known(box, history, bad)
    requires Open(Noise.TransportKeys(Noise.Read2(i, m2).0).value.1, counter, box, Empty).Ok?
    ensures exists d, a | d in history && a in history ::
              d.SealedData? && d.counter == counter && box.plain == Payload(d.packet) &&
              a.Replied? && a.r == d.st && d.st.ck == Noise.Read2(i, m2).0.ck
  {
    InitiatorKeysAreSecret(i, sI, sR, eI, m1, m2, history, bad);
    var d := OpenedWasSealed(Noise.Read2(i, m2).0, counter, box, history, bad);
  }

  /** What opens at a responder was sealed under that counter by an initiator that completed on the same chain. */
  lemma ResponderOpensOnlySealed(r: Noise.State, sR: nat, eR: nat, sI: nat, m1: Noise.Msg1, m2: Noise.Msg2,
                                 counter: u64, box: Term, history: set<Deed>, bad: set<nat>)
    requires HonestHistory(history)
    requires Noise.Answered(r, sR, eR, m1, m2) && r.remoteStatic == Public(sI)
    requires sI !in bad && sR !in bad && Known(box, history, bad)
    requires Noise.TransportKeys(r).Ok? && Open(Noise.TransportKeys(r).value.1, counter, box, Empty).Ok?
    ensures exists d, a | d in history && a in history ::
              d.SealedData? && d.counter == counter && box.plain == Payload(d.packet) &&
              a.Completed? && a.c == d.st && d.st.ck == r.ck
  {
    ResponderKeysAreSecret(r, sR, eR, sI, m1, m2, history, bad);
    var d := OpenedWasSealed(r, counter, box, history, bad);
  }
}
