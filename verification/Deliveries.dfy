/** What reaches the receiving node: nothing but what the peer sealed, and each packet how often. A handler checks the
    window and advances it in two separately locked regions. */
module Deliveries {
  import opened Words
  import opened Crypto
  import opened Replay
  import opened Sessions
  import opened NodeEngine
  import opened Tunnel

  // ---------------------------------------------------------------- what is delivered

  /** Whatever a handler is about to deliver is what the peer sealed under that counter, on a session that names this
      one. */
  lemma HeldPacketsAreAuthentic(keyA: nat, keyB: nat, steps: seq<(Side, Event)>, w: World, s: Side, reader: nat)
    requires Reaches(Start(keyA, keyB), steps, w) && reader in w.At(s).readers
    ensures var read, peer := w.At(s).readers[reader], w.At(Other(s));
            read.via in peer.channels && peer.channels[read.via].receiverID == read.id &&
            (read.via, read.counter) in peer.sent && read.plain == Payload(peer.sent[(read.via, read.counter)])
  {
    StartHolds(keyA, keyB);
    ReachesHolds(Start(keyA, keyB), steps, w);
    ReadIsSound(w.At(s), w.At(Other(s)), reader);
  }

  lemma ReadIsSound(n: Node, peer: Node, reader: nat)
    requires ReadsInv(n, peer) && reader in n.readers
    ensures ReadSound(n.readers[reader], peer.channels, peer.sent)
  {
  }

  /** Until a counter of 2048 is delivered, the check of a packet passes exactly if its counter was not delivered. */
  lemma EarlyPacketsPassOnce(keyA: nat, keyB: nat, steps: seq<(Side, Event)>, w: World, s: Side, d: DataPacket, via: u32)
    requires Reaches(Start(keyA, keyB), steps, w) && Data(d, via) in w.Inbox(s)
    requires via in w.At(Other(s)).offers
    requires d.receiver in w.At(s).accepted && forall c | c in w.At(s).accepted[d.receiver] :: c < WINDOW_SIZE
    ensures d.receiver in w.At(s).channels && (via, d.counter) in w.At(Other(s)).sent
    ensures Unsealed(w.At(s).channels[d.receiver].ch, d.counter, d.box) ==
            if d.counter !in w.At(s).accepted[d.receiver]
            then Ok(Payload(w.At(Other(s)).sent[(via, d.counter)])) else Err
  {
    InitiatorPacketsAreDelivered(keyA, keyB, steps, w, s, d, via);
    EarlyCountersAgree(w.At(s).accepted[d.receiver]);
  }

  // ---------------------------------------------------------------- how often

  /** Two handlers check the same packet before either advances: both deliver it. */
  lemma DoubleCheckDeliversTwice(n: Node, d: DataPacket, via: u32, r: nat, q: nat)
    requires Ordered(n) && d.receiver in n.channels && r != q && r !in n.readers && q !in n.readers
    requires Unsealed(n.channels[d.receiver].ch, d.counter, d.box).Ok?
    ensures var n1 := Opened(n, r, d, via);
            d.receiver in n1.channels &&
            var n2 := Opened(n1, q, d, via);
            r in n2.readers && Ordered(n2) &&
            var n3 := Delivered(n2, r);
            q in n3.readers && Ordered(n3) &&
            Delivered(n3, q).accepted[d.receiver] == n.accepted[d.receiver] + [d.counter, d.counter]
  {
    var cs := n.accepted[d.receiver];
    assert cs + [d.counter] + [d.counter] == cs + [d.counter, d.counter];
  }

  function Count(cs: seq<u64>, c: u64): nat {
    if cs == [] then 0 else Count(cs[..|cs| - 1], c) + if cs[|cs| - 1] == c then 1 else 0
  }

  ghost predicate NoRepeats(cs: seq<u64>) {
    forall i, j | 0 <= i < j < |cs| :: cs[i] != cs[j]
  }

  lemma {:induction false} CountZero(cs: seq<u64>, c: u64)
    ensures Count(cs, c) == 0 <==> c !in cs
  {
    if cs != [] {
      CountZero(cs[..|cs| - 1], c);
      assert cs == cs[..|cs| - 1] + [cs[|cs| - 1]];
    }
  }

  lemma {:induction false} CountOfRepeat(cs: seq<u64>)
    ensures NoRepeats(cs) <==> forall c: u64 :: Count(cs, c) <= 1
  {
    if cs != [] {
      var front, last := cs[..|cs| - 1], cs[|cs| - 1];
      CountOfRepeat(front);
      CountZero(front, last);
      if last in front {
        var i :| 0 <= i < |front| && front[i] == last;
        assert cs[i] == cs[|cs| - 1];
        assert Count(cs, last) > 1;
      } else if NoRepeats(front) {
        forall c: u64 ensures Count(cs, c) <= 1 { assert Count(front, c) <= 1; }
        forall i, j | 0 <= i < j < |cs| ensures cs[i] != cs[j] {
          if j == |cs| - 1 { assert front[i] == cs[i]; } else { assert front[i] == cs[i] && front[j] == cs[j]; }
        }
      } else {
        var c: u64 :| Count(front, c) > 1;
        assert Count(cs, c) > 1;
        var i, j :| 0 <= i < j < |front| && front[i] == front[j];
        assert cs[i] == cs[j];
      }
    }
  }

  function Holders(readers: map<nat, Read>, id: u32, c: u64): set<nat> {
    set r | r in readers && readers[r].id == id && readers[r].counter == c
  }

  /** How often the counter was delivered or is about to be. */
  function Shares(n: Node, id: u32, c: u64): nat {
    (if id in n.accepted then Count(n.accepted[id], c) else 0) + |Holders(n.readers, id, c)|
  }

  /** No two handlers hold the same counter of this session between their two regions. */
  ghost predicate Exclusive(n: Node, id: u32) {
    forall r, q | r in n.readers && q in n.readers && n.readers[r].id == n.readers[q].id == id &&
      n.readers[r].counter == n.readers[q].counter :: r == q
  }

  ghost predicate AlwaysExclusive(w: World, steps: seq<(Side, Event)>, w': World, s: Side, id: u32)
    requires Reaches(w, steps, w')
    decreases |steps|
  {
    Exclusive(w.At(s), id) &&
    (steps != [] ==> AlwaysExclusive(Next(w, steps[0].0, steps[0].1), steps[1..], w', s, id))
  }

  lemma ExclusiveIffFewHolders(n: Node, id: u32)
    ensures Exclusive(n, id) <==> forall c: u64 :: |Holders(n.readers, id, c)| <= 1
  {
    if Exclusive(n, id) {
      forall c: u64 ensures |Holders(n.readers, id, c)| <= 1 {
        var hs := Holders(n.readers, id, c);
        if hs != {} {
          var r :| r in hs;
          assert hs == {r};
        }
      }
    } else {
      var r, q :| r in n.readers && q in n.readers && n.readers[r].id == n.readers[q].id == id &&
                  n.readers[r].counter == n.readers[q].counter && r != q;
      var hs := Holders(n.readers, id, n.readers[r].counter);
      assert {r, q} <= hs;
      assert |hs| == |hs - {r, q}| + |{r, q}|;
    }
  }

  // ---------------------------------------------------------------- steps

  /** Readers as they were; logs as they were, new ones empty. */
  ghost predicate SameDeliveries(n: Node, n': Node) {
    n'.readers == n.readers &&
    (forall id | id in n.accepted :: id in n'.accepted && n'.accepted[id] == n.accepted[id]) &&
    (forall id | id in n'.accepted && id !in n.accepted :: n'.accepted[id] == [])
  }

  /** A session is kept under an id that has none yet. */
  ghost predicate DraftsAreNew(n: Node) {
    Ordered(n) && n.channels.Keys !! n.tables.drafts
  }

  lemma KeptKeepsDeliveries(n: Node, peer: nat, inbox: set<Packet>, e: Event)
    requires DraftsAreNew(n) && CanStep(n, inbox, e) && (e.FinishRespond? || e.FinishInitiate?)
    ensures SameDeliveries(n, Act(n, peer, inbox, e).0)
  {
  }

  lemma HandshakeKeepsDeliveries(n: Node, peer: nat, inbox: set<Packet>, e: Event)
    requires DraftsAreNew(n) && CanStep(n, inbox, e) && !e.CheckData? && !e.AdvanceData?
    ensures SameDeliveries(n, Act(n, peer, inbox, e).0)
  {
    if e.FinishRespond? || e.FinishInitiate? { KeptKeepsDeliveries(n, peer, inbox, e); }
  }

  lemma SameDeliveriesSameShares(n: Node, n': Node, id: u32, c: u64)
    requires SameDeliveries(n, n')
    ensures Shares(n', id, c) == Shares(n, id, c)
  {
  }

  lemma HoldersGrow(readers: map<nat, Read>, reader: nat, read: Read, id: u32, c: u64)
    requires reader !in readers
    ensures |Holders(readers[reader := read], id, c)| ==
            |Holders(readers, id, c)| + if read.id == id && read.counter == c then 1 else 0
  {
    var more := Holders(readers[reader := read], id, c);
    assert more == Holders(readers, id, c) + if read.id == id && read.counter == c then {reader} else {};
  }

  lemma HoldersShrink(readers: map<nat, Read>, reader: nat, id: u32, c: u64)
    requires reader in readers
    ensures |Holders(readers, id, c)| ==
            |Holders(readers - {reader}, id, c)| + if readers[reader].id == id && readers[reader].counter == c then 1 else 0
  {
    var fewer := Holders(readers - {reader}, id, c);
    assert Holders(readers, id, c) ==
           fewer + if readers[reader].id == id && readers[reader].counter == c then {reader} else {};
  }

  /** A check adds one share of its counter if it passes. */
  lemma CheckShares(n: Node, reader: nat, d: DataPacket, via: u32, id: u32, c: u64)
    requires d.receiver in n.channels && reader !in n.readers
    ensures var passes := Unsealed(n.channels[d.receiver].ch, d.counter, d.box).Ok?;
            Shares(Opened(n, reader, d, via), id, c) ==
            Shares(n, id, c) + if passes && d.receiver == id && d.counter == c then 1 else 0
  {
    HoldersGrow(n.readers, reader, Read(d.receiver, d.counter, Empty, via), id, c);
    var n' := Opened(n, reader, d, via);
    if n' != n { HoldersGrow(n.readers, reader, n'.readers[reader], id, c); }
  }

  /** An advance moves a share from the handlers to the log. */
  lemma AdvanceShares(n: Node, reader: nat, id: u32, c: u64)
    requires Ordered(n) && reader in n.readers
    ensures Shares(Delivered(n, reader), id, c) == Shares(n, id, c)
  {
    HoldersShrink(n.readers, reader, id, c);
    var read := n.readers[reader];
    var cs := n.accepted[read.id];
    assert (cs + [read.counter])[..|cs|] == cs;
  }

  lemma SharesNeverFall(n: Node, peer: nat, inbox: set<Packet>, e: Event, id: u32, c: u64)
    requires DraftsAreNew(n) && CanStep(n, inbox, e)
    ensures Shares(Act(n, peer, inbox, e).0, id, c) >= Shares(n, id, c)
  {
    if e.CheckData? {
      CheckShares(n, e.reader, e.data, e.via, id, c);
    } else if e.AdvanceData? {
      AdvanceShares(n, e.reader, id, c);
    } else {
      HandshakeKeepsDeliveries(n, peer, inbox, e);
      SameDeliveriesSameShares(n, Act(n, peer, inbox, e).0, id, c);
    }
  }

  /** While the window agrees with the log, a counter that was delivered does not pass. */
  lemma PassingIsNew(n: Node, d: DataPacket)
    requires CountersInv(n) && d.receiver in n.channels && WholeSlides(Fresh(), n.accepted[d.receiver])
    requires Unsealed(n.channels[d.receiver].ch, d.counter, d.box).Ok?
    ensures Count(n.accepted[d.receiver], d.counter) == 0
  {
    var past := n.accepted[d.receiver];
    RunAgrees(past);
    assert Accepts(Run(Fresh(), past), d.counter);
    assert d.counter !in (set c | c in past);
    CountZero(past, d.counter);
  }

  ghost predicate OneShareEach(n: Node, id: u32) {
    forall c: u64 :: Shares(n, id, c) <= 1
  }

  lemma OneShareStep(n: Node, peer: nat, inbox: set<Packet>, e: Event, id: u32, c: u64)
    requires DraftsAreNew(n) && CountersInv(n) && CanStep(n, inbox, e)
    requires id in n.accepted ==> WholeSlides(Fresh(), n.accepted[id])
    requires Shares(n, id, c) <= 1 && Exclusive(Act(n, peer, inbox, e).0, id)
    ensures Shares(Act(n, peer, inbox, e).0, id, c) <= 1
  {
    var n' := Act(n, peer, inbox, e).0;
    if e.CheckData? {
      CheckShares(n, e.reader, e.data, e.via, id, c);
      if n' != n && e.data.receiver == id && e.data.counter == c {
        PassingIsNew(n, e.data);
        ExclusiveIffFewHolders(n', id);
        assert |Holders(n'.readers, id, c)| <= 1;
      }
    } else if e.AdvanceData? {
      AdvanceShares(n, e.reader, id, c);
    } else {
      HandshakeKeepsDeliveries(n, peer, inbox, e);
      SameDeliveriesSameShares(n, n', id, c);
    }
  }

  /** A log only grows at its end. */
  lemma LogGrows(n: Node, peer: nat, inbox: set<Packet>, e: Event, id: u32)
    requires DraftsAreNew(n) && CanStep(n, inbox, e) && id in n.accepted
    ensures id in Act(n, peer, inbox, e).0.accepted && n.accepted[id] <= Act(n, peer, inbox, e).0.accepted[id]
  {
    if !e.CheckData? && !e.AdvanceData? { HandshakeKeepsDeliveries(n, peer, inbox, e); }
  }

  lemma {:induction false} WholeSlidesOfPrefix(w: Window, cs: seq<u64>, more: seq<u64>)
    requires cs <= more && WholeSlides(w, more)
    ensures WholeSlides(w, cs)
  {
    if cs != more { WholeSlidesOfPrefix(w, cs, more[..|more| - 1]); }
  }

  // ---------------------------------------------------------------- runs

  lemma HoldsGives(w: World, s: Side)
    requires Holds(w)
    ensures DraftsAreNew(w.At(s)) && CountersInv(w.At(s))
  {
  }

  lemma OneSideSteps(w: World, t: Side, e: Event, s: Side)
    requires Ordered(w.At(t)) && Possible(w, t, e)
    ensures Next(w, t, e).At(s) == if t == s then Act(w.At(s), w.At(Other(s)).kp, w.Inbox(s), e).0 else w.At(s)
  {
  }

  lemma {:induction false} SharesOverRun(w: World, steps: seq<(Side, Event)>, w': World, s: Side, id: u32, c: u64)
    requires Holds(w) && Reaches(w, steps, w')
    ensures Shares(w'.At(s), id, c) >= Shares(w.At(s), id, c)
    decreases |steps|
  {
    if steps != [] {
      var (t, e) := steps[0];
      HoldsGives(w, t);
      OneSideSteps(w, t, e, s);
      if t == s { SharesNeverFall(w.At(s), w.At(Other(s)).kp, w.Inbox(s), e, id, c); }
      NextHolds(w, t, e);
      SharesOverRun(Next(w, t, e), steps[1..], w', s, id, c);
    }
  }

  lemma {:induction false} LogOverRun(w: World, steps: seq<(Side, Event)>, w': World, s: Side, id: u32)
    requires Holds(w) && Reaches(w, steps, w') && id in w.At(s).accepted
    ensures id in w'.At(s).accepted && w.At(s).accepted[id] <= w'.At(s).accepted[id]
    decreases |steps|
  {
    if steps != [] {
      var (t, e) := steps[0];
      HoldsGives(w, t);
      OneSideSteps(w, t, e, s);
      if t == s { LogGrows(w.At(s), w.At(Other(s)).kp, w.Inbox(s), e, id); }
      NextHolds(w, t, e);
      LogOverRun(Next(w, t, e), steps[1..], w', s, id);
    }
  }

  ghost predicate WholeLog(n: Node, id: u32) {
    id in n.accepted ==> WholeSlides(Fresh(), n.accepted[id])
  }

  lemma WholeLogBefore(w: World, steps: seq<(Side, Event)>, w': World, s: Side, id: u32)
    requires Holds(w) && Reaches(w, steps, w') && WholeLog(w'.At(s), id)
    ensures WholeLog(w.At(s), id)
  {
    if id in w.At(s).accepted {
      LogOverRun(w, steps, w', s, id);
      WholeSlidesOfPrefix(Fresh(), w.At(s).accepted[id], w'.At(s).accepted[id]);
    }
  }

  lemma OneShareNext(w: World, t: Side, e: Event, s: Side, id: u32)
    requires Holds(w) && Possible(w, t, e) && WholeLog(w.At(s), id) && OneShareEach(w.At(s), id)
    requires Exclusive(Next(w, t, e).At(s), id)
    ensures OneShareEach(Next(w, t, e).At(s), id)
  {
    HoldsGives(w, t);
    HoldsGives(w, s);
    OneSideSteps(w, t, e, s);
    if t == s {
      forall c: u64 ensures Shares(Next(w, t, e).At(s), id, c) <= 1 {
        OneShareStep(w.At(s), w.At(Other(s)).kp, w.Inbox(s), e, id, c);
      }
    }
  }

  lemma {:induction false} ExclusiveRunsShareOnce(w: World, steps: seq<(Side, Event)>, w': World, s: Side, id: u32)
    requires Holds(w) && Reaches(w, steps, w') && AlwaysExclusive(w, steps, w', s, id)
    requires WholeLog(w'.At(s), id) && OneShareEach(w.At(s), id)
    ensures OneShareEach(w'.At(s), id)
    decreases |steps|
  {
    if steps != [] {
      var (t, e) := steps[0];
      WholeLogBefore(w, steps, w', s, id);
      OneShareNext(w, t, e, s, id);
      NextHolds(w, t, e);
      ExclusiveRunsShareOnce(Next(w, t, e), steps[1..], w', s, id);
    }
  }

  lemma {:induction false} OtherRunsShareTwice(w: World, steps: seq<(Side, Event)>, w': World, s: Side, id: u32)
      returns (c: u64)
    requires Holds(w) && Reaches(w, steps, w') && !AlwaysExclusive(w, steps, w', s, id)
    ensures Shares(w'.At(s), id, c) > 1
    decreases |steps|
  {
    if !Exclusive(w.At(s), id) {
      ExclusiveIffFewHolders(w.At(s), id);
      c :| |Holders(w.At(s).readers, id, c)| > 1;
      SharesOverRun(w, steps, w', s, id, c);
    } else {
      var (t, e) := steps[0];
      NextHolds(w, t, e);
      c := OtherRunsShareTwice(Next(w, t, e), steps[1..], w', s, id);
    }
  }

  lemma NobodyHolds(n: Node, id: u32, c: u64)
    requires forall r | r in n.readers :: n.readers[r].id != id
    ensures |Holders(n.readers, id, c)| == 0
  {
    assert Holders(n.readers, id, c) == {};
  }

  lemma StartSharesNothing(keyA: nat, keyB: nat, s: Side, id: u32)
    ensures OneShareEach(Start(keyA, keyB).At(s), id)
  {
    var n := NewNode(if s.A? then keyA else keyB);
    forall c: u64 ensures Shares(n, id, c) <= 1 { NobodyHolds(n, id, c); }
  }

  lemma FinishedSharesAreDeliveries(n: Node, id: u32)
    requires id in n.accepted && forall r | r in n.readers :: n.readers[r].id != id
    ensures NoRepeats(n.accepted[id]) <==> OneShareEach(n, id)
  {
    CountOfRepeat(n.accepted[id]);
    forall c: u64 ensures Shares(n, id, c) == Count(n.accepted[id], c) { NobodyHolds(n, id, c); }
    if !NoRepeats(n.accepted[id]) {
      var c: u64 :| Count(n.accepted[id], c) > 1;
      assert Shares(n, id, c) > 1;
    } else {
      forall c: u64 ensures Shares(n, id, c) <= 1 { assert Count(n.accepted[id], c) <= 1; }
    }
  }

  lemma SharesOnceIff(w: World, steps: seq<(Side, Event)>, w': World, s: Side, id: u32)
    requires Holds(w) && Reaches(w, steps, w') && WholeLog(w'.At(s), id) && OneShareEach(w.At(s), id)
    ensures OneShareEach(w'.At(s), id) <==> AlwaysExclusive(w, steps, w', s, id)
  {
    if AlwaysExclusive(w, steps, w', s, id) {
      ExclusiveRunsShareOnce(w, steps, w', s, id);
    } else {
      var c := OtherRunsShareTwice(w, steps, w', s, id);
      assert Shares(w'.At(s), id, c) > 1;
    }
  }

  /** In a run after which no handler of the session is left between its two regions, every counter of the session was
      delivered at most once if and only if at no moment two handlers held the same counter there, as long as the
      window only made whole slides. */
  lemma DeliveredAtMostOnceIff(keyA: nat, keyB: nat, steps: seq<(Side, Event)>, w: World, s: Side, id: u32)
    requires Reaches(Start(keyA, keyB), steps, w) && id in w.At(s).accepted
    requires forall r | r in w.At(s).readers :: w.At(s).readers[r].id != id
    requires WholeSlides(Fresh(), w.At(s).accepted[id])
    ensures NoRepeats(w.At(s).accepted[id]) <==> AlwaysExclusive(Start(keyA, keyB), steps, w, s, id)
  {
    StartHolds(keyA, keyB);
    StartSharesNothing(keyA, keyB, s, id);
    SharesOnceIff(Start(keyA, keyB), steps, w, s, id);
    FinishedSharesAreDeliveries(w.At(s), id);
  }
}
