/** The two-message handshake as the code runs it, both roles. */
module Noise {
  import opened Crypto

  const PROTOCOL_NAME := Text("Noise_IK_25519_ChaChaPoly_BLAKE2s")
  const PROLOGUE := Text("karadul-v1")

  /** A message is either too short to read, or its fixed-length fields. */
  datatype Msg1 = Short1 | Msg1(e: Term, encStatic: Term, encPayload: Term)
  datatype Msg2 = Short2 | Msg2(e: Term, encPayload: Term)

  /** The fields of a handshake in progress. */
  datatype State = State(
    isInitiator: bool, localStatic: nat, remoteStatic: Term, localEphemeral: nat, remoteEphemeral: Term,
    ck: Term, h: Term, k: Term, nMsg: int)

  function Initial(isInitiator: bool, localStatic: nat, remoteStatic: Term, ephemeral: nat): State {
    var ck := Hash(PROTOCOL_NAME);
    var h := MixHash(HashPair(ck, PROLOGUE), if isInitiator then remoteStatic else Public(localStatic));
    State(isInitiator, localStatic, remoteStatic, ephemeral, Empty, ck, h, Empty, 0)
  }

  function Initiator(localStatic: nat, remoteStatic: Term, ephemeral: nat): State {
    Initial(true, localStatic, remoteStatic, ephemeral)
  }

  function Responder(localStatic: nat, ephemeral: nat): State {
    Initial(false, localStatic, Empty, ephemeral)
  }

  function Mixed(s: State, secret: Term): State {
    s.(ck := MixKey(s.ck, secret).0, k := MixKey(s.ck, secret).1)
  }

  function Hashed(s: State, data: Term): State {
    s.(h := MixHash(s.h, data))
  }

  /** Every step returns the state it leaves behind; on an error the fields set before it stay set. */
  function Write1(s: State): (State, Result<Msg1>) {
    if !s.isInitiator || s.nMsg != 0 then (s, Err) else
    var s := Hashed(s, Public(s.localEphemeral));
    match ECDH(s.localEphemeral, s.remoteStatic)
    case Err => (s, Err)
    case Ok(es) =>
      var s := Mixed(s, es);
      var encStatic := Sealed(s.k, 0, Public(s.localStatic), s.h);
      var s := Hashed(s, encStatic);
      match ECDH(s.localStatic, s.remoteStatic)
      case Err => (s, Err)
      case Ok(ss) =>
        var s := Mixed(s, ss);
        var encPayload := Sealed(s.k, 0, Empty, s.h);
        (Hashed(s, encPayload).(nMsg := 1), Ok(Msg1(Public(s.localEphemeral), encStatic, encPayload)))
  }

  function Read1(s: State, m: Msg1): (State, bool) {
    if s.isInitiator || s.nMsg != 0 || m.Short1? then (s, false) else
    var s := Hashed(s.(remoteEphemeral := m.e), m.e);
    match ECDH(s.localStatic, s.remoteEphemeral)
    case Err => (s, false)
    case Ok(es) =>
      var s := Mixed(s, es);
      match Open(s.k, 0, m.encStatic, s.h)
      case Err => (s, false)
      case Ok(remote) =>
        var s := Hashed(s.(remoteStatic := remote), m.encStatic);
        match ECDH(s.localStatic, s.remoteStatic)
        case Err => (s, false)
        case Ok(ss) =>
          var s := Mixed(s, ss);
          if Open(s.k, 0, m.encPayload, s.h).Err? then (s, false)
          else (Hashed(s, m.encPayload).(nMsg := 1), true)
  }

  function Write2(s: State): (State, Result<Msg2>) {
    if s.isInitiator || s.nMsg != 1 then (s, Err) else
    var s := Hashed(s, Public(s.localEphemeral));
    match ECDH(s.localEphemeral, s.remoteEphemeral)
    case Err => (s, Err)
    case Ok(ee) =>
      var s := Mixed(s, ee);
      match ECDH(s.localStatic, s.remoteEphemeral)
      case Err => (s, Err)
      case Ok(se) =>
        var s := Mixed(s, se);
        var encPayload := Sealed(s.k, 0, Empty, s.h);
        (Hashed(s, encPayload).(nMsg := 2), Ok(Msg2(Public(s.localEphemeral), encPayload)))
  }

  function Read2(s: State, m: Msg2): (State, bool) {
    if !s.isInitiator || s.nMsg != 1 || m.Short2? then (s, false) else
    var s := Hashed(s.(remoteEphemeral := m.e), m.e);
    match ECDH(s.localEphemeral, s.remoteEphemeral)
    case Err => (s, false)
    case Ok(ee) =>
      var s := Mixed(s, ee);
      match ECDH(s.localEphemeral, s.remoteStatic)
      case Err => (s, false)
      case Ok(se) =>
        var s := Mixed(s, se);
        if Open(s.k, 0, m.encPayload, s.h).Err? then (s, false)
        else (Hashed(s, m.encPayload).(nMsg := 2), true)
  }

  /** (send, recv) of a finished handshake. */
  function TransportKeys(s: State): Result<(Term, Term)> {
    if s.nMsg < 2 then Err
    else if s.isInitiator then Ok(Split(s.ck)) else Ok((Split(s.ck).1, Split(s.ck).0))
  }

  // ---------------------------------------------------------------- message 1

  /** A responder accepts an honest first message exactly when the message was meant for its key. */
  lemma Message1AcceptedIffAddressed(initiator: nat, target: nat, eI: nat, responder: nat, eR: nat)
    ensures Write1(Initiator(initiator, Public(target), eI)).1.Ok?
    ensures var (i, m) := Write1(Initiator(initiator, Public(target), eI));
            var (r, ok) := Read1(Responder(responder, eR), m.value);
            (ok <==> target == responder) &&
            (ok ==> r.remoteStatic == Public(initiator) && r.remoteEphemeral == Public(eI) &&
                    r.ck == i.ck && r.h == i.h && r.k == i.k)
  {
    EcdhCommutes(eI, target, eI, responder);
    EcdhCommutes(eI, responder, eI, target);
    EcdhCommutes(initiator, responder, initiator, responder);
  }

  // ---------------------------------------------------------------- whole handshakes

  /** An initiator that has sent its first message, and what it sent. */
  predicate Sent1(i: State, sI: nat, target: Term, e: nat, m1: Msg1) {
    Write1(Initiator(sI, target, e)) == (i, Ok(m1))
  }

  /** A responder that read m1 and answered m2. */
  predicate Answered(r: State, sR: nat, e: nat, m1: Msg1, m2: Msg2) {
    Read1(Responder(sR, e), m1).1 && Write2(Read1(Responder(sR, e), m1).0) == (r, Ok(m2))
  }

  /** Both ends finished on the same secrets: same chaining key and hash, each sends under the key the other
      receives with. */
  predicate Agreement(i: State, r: State) {
    i.ck == r.ck && i.h == r.h &&
    TransportKeys(i).Ok? && TransportKeys(r).Ok? &&
    TransportKeys(i).value.0 == TransportKeys(r).value.1 &&
    TransportKeys(i).value.1 == TransportKeys(r).value.0 &&
    TransportKeys(i).value.0 != TransportKeys(i).value.1
  }

  /** The initiator that receives a tag some responder wrote, in whatever message and after whatever that
      responder had read, accepts exactly when the two of them saw the same transcript; then they agree. */
  lemma AcceptedMeansSameTranscript(i: State, sI: nat, target: Term, eI: nat, m1: Msg1,
                                    r: State, sR: nat, eR: nat, m1': Msg1, m2: Msg2, e': Term)
    requires Sent1(i, sI, target, eI, m1)
    requires Answered(r, sR, eR, m1', m2)
    ensures var (i', ok) := Read2(i, Msg2(e', m2.encPayload));
            (ok <==> m1 == m1' && e' == m2.e && target == Public(sR)) &&
            (ok ==> Agreement(i', r) && r.remoteStatic == Public(sI))
  {
    var (i', ok) := Read2(i, Msg2(e', m2.encPayload));
    if ok {
      SameTag(i, sI, target, eI, m1, r, sR, eR, m1', m2, e');
      SplitSeparates(i'.ck, i'.ck);
      ResponderLearnsInitiator(i, sI, eI, m1, r, sR, eR, m2);
    }
    if m1 == m1' && e' == m2.e && target == Public(sR) {
      HonestReplyAccepted(i, sI, eI, m1, r, sR, eR, m2);
    }
  }

  lemma ResponderLearnsInitiator(i: State, sI: nat, eI: nat, m1: Msg1, r: State, sR: nat, eR: nat, m2: Msg2)
    requires Sent1(i, sI, Public(sR), eI, m1) && Answered(r, sR, eR, m1, m2)
    ensures r.remoteStatic == Public(sI)
  {
    Message1AcceptedIffAddressed(sI, sR, eI, sR, eR);
  }

  lemma HonestReplyAccepted(i: State, sI: nat, eI: nat, m1: Msg1, r: State, sR: nat, eR: nat, m2: Msg2)
    requires Sent1(i, sI, Public(sR), eI, m1) && Answered(r, sR, eR, m1, m2)
    ensures Read2(i, m2).1
  {
    Message1AcceptedIffAddressed(sI, sR, eI, sR, eR);
    EcdhCommutes(eI, eR, eI, eR);
    EcdhCommutes(eI, sR, eI, sR);
  }

  lemma HonestReplyAgrees(i: State, sI: nat, eI: nat, m1: Msg1, r: State, sR: nat, eR: nat, m2: Msg2)
    requires Sent1(i, sI, Public(sR), eI, m1) && Answered(r, sR, eR, m1, m2)
    ensures Read2(i, m2).1 && Agreement(Read2(i, m2).0, r)
  {
    HonestReplyAccepted(i, sI, eI, m1, r, sR, eR, m2);
    SameTag(i, sI, Public(sR), eI, m1, r, sR, eR, m1, m2, m2.e);
    SplitSeparates(r.ck, r.ck);
  }

  /** Injectivity of the hash chain: equal tags force equal transcripts and equal chaining keys. */
  lemma SameTag(i: State, sI: nat, target: Term, eI: nat, m1: Msg1,
                r: State, sR: nat, eR: nat, m1': Msg1, m2: Msg2, e': Term)
    requires Sent1(i, sI, target, eI, m1)
    requires Answered(r, sR, eR, m1', m2)
    requires Read2(i, Msg2(e', m2.encPayload)).1
    ensures m1 == m1' && e' == m2.e && target == Public(sR)
    ensures Read2(i, Msg2(e', m2.encPayload)).0.ck == r.ck
    ensures Read2(i, Msg2(e', m2.encPayload)).0.h == r.h
  {
    var i' := Read2(i, Msg2(e', m2.encPayload)).0;
    assert m2.encPayload == Sealed(r.k, 0, Empty, r.h.h);
    assert m2.encPayload == Sealed(i'.k, 0, Empty, i'.h.h);
    assert r.h.h == HashPair(HashPair(HashPair(HashPair(MixHash(HashPair(Hash(PROTOCOL_NAME), PROLOGUE), Public(sR)),
      m1'.e), m1'.encStatic), m1'.encPayload), m2.e);
    assert i'.h.h == HashPair(HashPair(HashPair(HashPair(MixHash(HashPair(Hash(PROTOCOL_NAME), PROLOGUE), target),
      m1.e), m1.encStatic), m1.encPayload), e');
  }

  function Chain(es: Term, ss: Term, ee: Term, se: Term): Term {
    MixKey(MixKey(MixKey(MixKey(Hash(PROTOCOL_NAME), es).0, ss).0, ee).0, se).0
  }

  /** The four secrets behind a responder's chaining key. */
  lemma ResponderChain(r: State, sR: nat, eR: nat, m1: Msg1, m2: Msg2)
    requires Answered(r, sR, eR, m1, m2)
    ensures m1.Msg1? && m1.e.Public? && r.remoteStatic.Public? && r.nMsg == 2 && !r.isInitiator
    ensures var e, si := m1.e.secret, r.remoteStatic.secret;
            r.ck == Chain(Shared(multiset{sR, e}), Shared(multiset{sR, si}), Shared(multiset{eR, e}), Shared(multiset{sR, e}))
  {
  }

  lemma ChainInjective(a: Term, b: Term, c: Term, d: Term, a': Term, b': Term, c': Term, d': Term)
    requires Chain(a, b, c, d) == Chain(a', b', c', d')
    ensures a == a' && b == b' && c == c' && d == d'
  {
  }

  lemma OtherHalf(a: nat, b: nat, d: nat)
    requires multiset{a, b} == multiset{a, d}
    ensures b == d
  {
    EcdhCommutes(a, b, a, d);
  }

  /** Two handshakes in which any responder or initiator ephemeral differs end on different keys in both directions. */
  lemma FreshEphemeralsSeparateSessions(r: State, sR: nat, eR: nat, m1: Msg1, m2: Msg2,
                                        r': State, eR': nat, m1': Msg1, m2': Msg2)
    requires Answered(r, sR, eR, m1, m2) && Answered(r', sR, eR', m1', m2')
    requires TransportKeys(r).value.0 == TransportKeys(r').value.0 || TransportKeys(r).value.1 == TransportKeys(r').value.1
    ensures r.remoteStatic == r'.remoteStatic && m1.e == m1'.e && eR == eR'
  {
    ResponderChain(r, sR, eR, m1, m2);
    ResponderChain(r', sR, eR', m1', m2');
    SplitSeparates(r.ck, r'.ck);
    SameSecrets(sR, eR, m1.e.secret, r.remoteStatic.secret, eR', m1'.e.secret, r'.remoteStatic.secret);
  }

  lemma SameSecrets(sR: nat, eR: nat, e: nat, si: nat, eR': nat, e': nat, si': nat)
    requires Chain(Shared(multiset{sR, e}), Shared(multiset{sR, si}), Shared(multiset{eR, e}), Shared(multiset{sR, e})) ==
             Chain(Shared(multiset{sR, e'}), Shared(multiset{sR, si'}), Shared(multiset{eR', e'}), Shared(multiset{sR, e'}))
    ensures e == e' && si == si' && eR == eR'
  {
    ChainInjective(Shared(multiset{sR, e}), Shared(multiset{sR, si}), Shared(multiset{eR, e}), Shared(multiset{sR, e}),
                   Shared(multiset{sR, e'}), Shared(multiset{sR, si'}), Shared(multiset{eR', e'}), Shared(multiset{sR, e'}));
    OtherHalf(sR, e, e');
    OtherHalf(sR, si, si');
    OtherHalf(e, eR, eR');
  }

  /** Any initiator and responder that address each other complete, whatever their ephemerals. */
  lemma HonestHandshakeCompletes(sI: nat, eI: nat, sR: nat, eR: nat)
    ensures var (i, m1) := Write1(Initiator(sI, Public(sR), eI));
            m1.Ok? && Read1(Responder(sR, eR), m1.value).1 &&
            var (r, m2) := Write2(Read1(Responder(sR, eR), m1.value).0);
            m2.Ok? && Read2(i, m2.value).1 &&
            Agreement(Read2(i, m2.value).0, r) && r.remoteStatic == Public(sI)
  {
    Message1AcceptedIffAddressed(sI, sR, eI, sR, eR);
    var (i, m1) := Write1(Initiator(sI, Public(sR), eI));
    var (r, m2) := Write2(Read1(Responder(sR, eR), m1.value).0);
    AcceptedMeansSameTranscript(i, sI, Public(sR), eI, m1.value, r, sR, eR, m1.value, m2.value, m2.value.e);
  }

  // ---------------------------------------------------------------- the object

  class HandshakeState {
    const isInitiator: bool
    const localStatic: nat
    const localEphemeral: nat
    var remoteStatic: Term
    var remoteEphemeral: Term
    var ck: Term
    var h: Term
    var k: Term
    var nMsg: int

    ghost function View(): State
      reads this
    {
      State(isInitiator, localStatic, remoteStatic, localEphemeral, remoteEphemeral, ck, h, k, nMsg)
    }

    constructor (isInitiator: bool, localStatic: nat, remoteStatic: Term, ephemeral: nat)
      ensures View() == Initial(isInitiator, localStatic, remoteStatic, ephemeral)
    {
      this.isInitiator, this.localStatic, this.remoteStatic := isInitiator, localStatic, remoteStatic;
      ck := Hash(PROTOCOL_NAME);
      k, remoteEphemeral, nMsg := Empty, Empty, 0;
      h := MixHash(HashPair(Hash(PROTOCOL_NAME), PROLOGUE), if isInitiator then remoteStatic else Public(localStatic));
      localEphemeral := ephemeral;
    }

    method WriteMessage1() returns (msg: Result<Msg1>)
      modifies this
      ensures (View(), msg) == Write1(old(View()))
    {
      if !isInitiator { return Err; }
      if nMsg != 0 { return Err; }
      h := MixHash(h, Public(localEphemeral));
      var es := ECDH(localEphemeral, remoteStatic);
      if es.Err? { return Err; }
      ck, k := MixKey(ck, es.value).0, MixKey(ck, es.value).1;
      var encStatic := Sealed(k, 0, Public(localStatic), h);
      h := MixHash(h, encStatic);
      var ss := ECDH(localStatic, remoteStatic);
      if ss.Err? { return Err; }
      ck, k := MixKey(ck, ss.value).0, MixKey(ck, ss.value).1;
      var encPayload := Sealed(k, 0, Empty, h);
      h := MixHash(h, encPayload);
      nMsg := 1;
      return Ok(Msg1(Public(localEphemeral), encStatic, encPayload));
    }

    method ReadMessage1(msg: Msg1) returns (ok: bool)
      modifies this
      ensures (View(), ok) == Read1(old(View()), msg)
    {
      if isInitiator || nMsg != 0 { return false; }
      if msg.Short1? { return false; }
      remoteEphemeral := msg.e;
      h := MixHash(h, remoteEphemeral);
      var es := ECDH(localStatic, remoteEphemeral);
      if es.Err? { return false; }
      ck, k := MixKey(ck, es.value).0, MixKey(ck, es.value).1;
      var remote := Open(k, 0, msg.encStatic, h);
      if remote.Err? { return false; }
      remoteStatic := remote.value;
      h := MixHash(h, msg.encStatic);
      var ss := ECDH(localStatic, remoteStatic);
      if ss.Err? { return false; }
      ck, k := MixKey(ck, ss.value).0, MixKey(ck, ss.value).1;
      if Open(k, 0, msg.encPayload, h).Err? { return false; }
      h := MixHash(h, msg.encPayload);
      nMsg := 1;
      return true;
    }

    method WriteMessage2() returns (msg: Result<Msg2>)
      modifies this
      ensures (View(), msg) == Write2(old(View()))
    {
      if isInitiator { return Err; }
      if nMsg != 1 { return Err; }
      h := MixHash(h, Public(localEphemeral));
      var ee := ECDH(localEphemeral, remoteEphemeral);
      if ee.Err? { return Err; }
      ck, k := MixKey(ck, ee.value).0, MixKey(ck, ee.value).1;
      var se := ECDH(localStatic, remoteEphemeral);
      if se.Err? { return Err; }
      ck, k := MixKey(ck, se.value).0, MixKey(ck, se.value).1;
      var encPayload := Sealed(k, 0, Empty, h);
      h := MixHash(h, encPayload);
      nMsg := 2;
      return Ok(Msg2(Public(localEphemeral), encPayload));
    }

    method ReadMessage2(msg: Msg2) returns (ok: bool)
      modifies this
      ensures (View(), ok) == Read2(old(View()), msg)
    {
      if !isInitiator || nMsg != 1 { return false; }
      if msg.Short2? { return false; }
      remoteEphemeral := msg.e;
      h := MixHash(h, remoteEphemeral);
      var ee := ECDH(localEphemeral, remoteEphemeral);
      if ee.Err? { return false; }
      ck, k := MixKey(ck, ee.value).0, MixKey(ck, ee.value).1;
      var se := ECDH(localEphemeral, remoteStatic);
      if se.Err? { return false; }
      ck, k := MixKey(ck, se.value).0, MixKey(ck, se.value).1;
      if Open(k, 0, msg.encPayload, h).Err? { return false; }
      h := MixHash(h, msg.encPayload);
      nMsg := 2;
      return true;
    }

    method Keys() returns (keys: Result<(Term, Term)>)
      ensures keys == TransportKeys(View())
    {
      if nMsg < 2 { return Err; }
      var (k1, k2) := Split(ck);
      if isInitiator { return Ok((k1, k2)); }
      return Ok((k2, k1));
    }
  }
}
