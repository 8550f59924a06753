/** The peer table over time, lock by lock: a reconciliation is many steps, and the collection comes in between. */
module MeshRuns {
  import opened Options
  import opened Peers
  import opened Mesh

  /** Upsert and Expire are the calls that a reconciliation makes; SetState stands for every transition and every
      received packet. */
  datatype Event =
    | Upsert(n: Node, now: int)
    | Expire(k: Key)
    | Collect(now: int)
    | SetState(k: Key, state: PeerState, lastSeen: int)

  predicate Possible(e: Event) {
    e.Upsert? ==> e.n.key.Some? && e.n.vip.Some?
  }

  function Next(t: Table, e: Event): Table
    requires Possible(e)
  {
    match e
    case Upsert(n, now) => AddOrUpdate(t, n, now)
    case Expire(k) => Remove(t, k)
    case Collect(now) => Gc(t, now)
    case SetState(k, state, lastSeen) =>
      if k in t.peers then t.(peers := t.peers[k := t.peers[k].(state := state, lastSeen := lastSeen)]) else t
  }

  predicate AllPossible(events: seq<Event>) {
    forall e | e in events :: Possible(e)
  }

  function Run(t: Table, events: seq<Event>): Table
    requires AllPossible(events)
    decreases |events|
  {
    if events == [] then t else Run(Next(t, events[0]), events[1..])
  }

  lemma {:induction false} RunOn(t: Table, events: seq<Event>, more: seq<Event>)
    requires AllPossible(events) && AllPossible(more)
    ensures AllPossible(events + more) && Run(t, events + more) == Run(Run(t, events), more)
    decreases |events|
  {
    if events == [] {
      assert events + more == more;
    } else {
      assert (events + more)[1..] == events[1..] + more;
      RunOn(Next(t, events[0]), events[1..], more);
    }
  }

  // ---------------------------------------------------------------- a reconciliation is such a run

  function Upserts(nodes: seq<Node>, self: Key, now: int): (events: seq<Event>)
    ensures AllPossible(events)
    decreases |nodes|
  {
    if nodes == [] then []
    else (if Usable(nodes[0], self) then [Upsert(nodes[0], now)] else []) + Upserts(nodes[1..], self, now)
  }

  function Expires(ks: seq<Key>): (events: seq<Event>)
    ensures |events| == |ks| && forall i | 0 <= i < |ks| :: events[i] == Expire(ks[i])
    ensures AllPossible(events)
  {
    seq(|ks|, i requires 0 <= i < |ks| => Expire(ks[i]))
  }

  lemma {:induction false} AddAllIsARun(t: Table, nodes: seq<Node>, self: Key, now: int)
    ensures Run(t, Upserts(nodes, self, now)) == AddAll(t, nodes, self, now)
    decreases |nodes|
  {
    if nodes != [] {
      var rest := Upserts(nodes[1..], self, now);
      if Usable(nodes[0], self) {
        assert ([Upsert(nodes[0], now)] + rest)[1..] == rest;
        AddAllIsARun(AddOrUpdate(t, nodes[0], now), nodes[1..], self, now);
      } else {
        assert [] + rest == rest;
        AddAllIsARun(t, nodes[1..], self, now);
      }
    }
  }

  lemma {:induction false} ExpiresRun(t: Table, ks: seq<Key>)
    ensures var t' := Run(t, Expires(ks));
            t'.byVIP == t.byVIP && t'.peers.Keys == t.peers.Keys &&
            forall k | k in t.peers :: t'.peers[k] == if k in ks then t.peers[k].(state := Expired) else t.peers[k]
    decreases |ks|
  {
    if ks != [] {
      assert Expires(ks)[1..] == Expires(ks[1..]);
      ExpiresRun(Remove(t, ks[0]), ks[1..]);
    }
  }

  /** With nothing in between, the calls of a reconciliation, in whatever order the peers are listed, amount to it. */
  lemma ApplyIsARun(t: Table, nodes: seq<Node>, self: Key, now: int, ks: seq<Key>)
    requires forall k :: k in ks <==> k in AddAll(t, nodes, self, now).peers && k !in Seen(nodes, self)
    ensures AllPossible(Upserts(nodes, self, now) + Expires(ks))
    ensures Run(t, Upserts(nodes, self, now) + Expires(ks)) == Apply(t, nodes, self, now)
  {
    var a := AddAll(t, nodes, self, now);
    AddAllIsARun(t, nodes, self, now);
    RunOn(t, Upserts(nodes, self, now), Expires(ks));
    ExpiresRun(a, ks);
    assert Run(a, Expires(ks)).peers == Apply(t, nodes, self, now).peers;
  }

  // ---------------------------------------------------------------- the index over all runs

  /** Every collection of the run meets no shared address. */
  ghost predicate Separated(t: Table, events: seq<Event>)
    requires AllPossible(events)
    decreases |events|
  {
    events == [] ||
    ((events[0].Collect? ==> NoSharedWithDropped(t, events[0].now)) && Separated(Next(t, events[0]), events[1..]))
  }

  lemma NextKeepsIndex(t: Table, e: Event)
    requires Sound(t) && Possible(e)
    ensures Sound(Next(t, e))
    ensures Covered(t) && (e.Collect? ==> NoSharedWithDropped(t, e.now)) ==> Covered(Next(t, e))
  {
    match e
    case Upsert(n, now) => AddKeepsIndex(t, n, now);
    case Collect(now) =>
      GcKeepsSound(t, now);
      if Covered(t) { GcKeepsCoveredIff(t, now); }
    case _ =>
  }

  lemma {:induction false} RunKeepsIndex(t: Table, events: seq<Event>)
    requires Sound(t) && AllPossible(events)
    ensures Sound(Run(t, events))
    ensures Covered(t) && Separated(t, events) ==> Covered(Run(t, events))
    decreases |events|
  {
    if events != [] {
      NextKeepsIndex(t, events[0]);
      RunKeepsIndex(Next(t, events[0]), events[1..]);
    }
  }

  /** In every reachable table, whatever comes between the calls of a reconciliation, each index entry leads to a held
      peer with that address; and if collections met no shared address, whenever the held peers have distinct
      addresses the index answers as a scan would. */
  lemma IndexIsAlwaysSound(events: seq<Event>)
    requires AllPossible(events)
    ensures Sound(Run(EMPTY, events))
    ensures Separated(EMPTY, events) && DistinctAddresses(Run(EMPTY, events)) ==> IndexIsScan(Run(EMPTY, events))
  {
    RunKeepsIndex(EMPTY, events);
    if DistinctAddresses(Run(EMPTY, events)) { CoveredIsScan(Run(EMPTY, events)); }
  }

  /** A node's address passes to a new node while the old peer is still held: the next collection leaves the new
      peer out of the index, though by then all addresses are distinct. */
  lemma ReassignedAddressIsLost(a: Node, b: Node, self: Key)
    requires Usable(a, self) && Usable(b, self) && a.key != b.key && a.vip == b.vip
    ensures var t := Gc(Apply(Apply(EMPTY, [a], self, 0), [b], self, 1), 2);
            t.peers.Keys == {b.key.value} && t.peers[b.key.value].vip == b.vip.value && DistinctAddresses(t) &&
            t.byVIP == map[]
  {
    var ka, kb := a.key.value, b.key.value;
    assert Seen([a], self) == {ka} by { assert a in [a]; }
    assert Seen([b], self) == {kb} by { assert b in [b]; }
    var t1 := Apply(EMPTY, [a], self, 0);
    assert AddAll(EMPTY, [a], self, 0) == AddOrUpdate(EMPTY, a, 0);
    assert t1 == Table(map[ka := Added(a, 0)], map[a.vip.value := ka]);
    var t2 := Apply(t1, [b], self, 1);
    assert AddAll(t1, [b], self, 1) == AddOrUpdate(t1, b, 1);
    assert t2.peers == map[ka := Added(a, 0).(state := Expired), kb := Added(b, 1)];
    assert t2.byVIP == map[b.vip.value := kb];
    assert Dropped(t2, 2) == {ka};
  }

  // ---------------------------------------------------------------- reconciliation with collections in between

  /** Nothing in the run updates peer k, or expires it by a call or a transition; packets received from the peer and its
      other transitions may occur, and collections. */
  predicate LeavesAlone(events: seq<Event>, k: Key) {
    forall e | e in events ::
      !(e.Upsert? && e.n.key == Some(k)) && e != Expire(k) && !(e.SetState? && e.k == k && e.state == Expired)
  }

  /** When the peer was last heard of after the event. */
  function Heard(e: Event, k: Key, lastSeen: int): int {
    if e.SetState? && e.k == k then e.lastSeen else lastSeen
  }

  /** Every collection of the run finds that k was heard of in time, up to then. */
  predicate HeardInTime(events: seq<Event>, k: Key, lastSeen: int)
    decreases |events|
  {
    events == [] ||
    ((events[0].Collect? ==> events[0].now - lastSeen <= 600) &&
     HeardInTime(events[1..], k, Heard(events[0], k, lastSeen)))
  }

  predicate HeldLive(t: Table, k: Key) {
    k in t.peers && t.peers[k].state != Expired
  }

  /** A transition decides alone whether a held peer is live, and brings the time it was last heard of. */
  lemma TransitionDecides(t: Table, k: Key, state: PeerState, lastSeen: int)
    ensures var t' := Next(t, SetState(k, state, lastSeen));
            (HeldLive(t', k) <==> k in t.peers && state != Expired) && (k in t.peers ==> t'.peers[k].lastSeen == lastSeen)
  {
  }

  lemma {:induction false} GoneStaysGone(t: Table, events: seq<Event>, k: Key)
    requires AllPossible(events) && LeavesAlone(events, k) && k !in t.peers
    ensures k !in Run(t, events).peers
    decreases |events|
  {
    if events != [] {
      assert events[0] in events;
      GoneStaysGone(Next(t, events[0]), events[1..], k);
    }
  }

  /** A live peer that nothing updates or expires is still held and live at the end exactly if every collection found
      it heard of in time. */
  lemma {:induction false} SurvivesIff(t: Table, events: seq<Event>, k: Key)
    requires AllPossible(events) && LeavesAlone(events, k) && HeldLive(t, k)
    ensures HeldLive(Run(t, events), k) <==> HeardInTime(events, k, t.peers[k].lastSeen)
    decreases |events|
  {
    if events != [] {
      var e, t' := events[0], Next(t, events[0]);
      assert e in events;
      assert events == [e] + events[1..];
      if e.Collect? && IsExpired(t.peers[k], e.now) {
        assert k !in t'.peers;
        GoneStaysGone(t', events[1..], k);
      } else {
        assert HeldLive(t', k) && t'.peers[k].lastSeen == Heard(e, k, t.peers[k].lastSeen);
        SurvivesIff(t', events[1..], k);
      }
    }
  }

  /** An online node with valid key and address is a live peer after a reconciliation, with collections and received
      packets in between, exactly if no collection after the node's last update finds it silent for over ten minutes:
      an update takes the peer out of the expired state, but it does not count as hearing from it. */
  lemma ReconciledIff(t: Table, n: Node, now: int, after: seq<Event>)
    requires n.key.Some? && n.vip.Some? && AllPossible(after)
    requires forall e | e in after ::
               !(e.Upsert? && e.n.key == n.key) && e != Expire(n.key.value) &&
               !(e.SetState? && e.k == n.key.value && e.state == Expired)
    ensures AllPossible([Upsert(n, now)] + after)
    ensures var k := n.key.value;
            var lastSeen := if k in t.peers then t.peers[k].lastSeen else now;
            HeldLive(Run(t, [Upsert(n, now)] + after), k) <==> HeardInTime(after, k, lastSeen)
  {
    var t' := AddOrUpdate(t, n, now);
    assert ([Upsert(n, now)] + after)[1..] == after;
    SurvivesIff(t', after, n.key.value);
  }

  /** The last part of a reconciliation: every unseen peer listed is expired, collections in between or not. */
  lemma {:induction false} UnseenEndExpired(t: Table, events: seq<Event>, seen: set<Key>)
    requires AllPossible(events) && forall e | e in events :: e.Expire? || e.Collect?
    requires forall k | HeldLive(t, k) && k !in seen :: Expire(k) in events
    ensures forall k | HeldLive(Run(t, events), k) :: k in seen
    decreases |events|
  {
    if events != [] {
      var e, t' := events[0], Next(t, events[0]);
      assert e in events && events == [e] + events[1..];
      forall k | HeldLive(t', k) && k !in seen ensures Expire(k) in events[1..] {
        assert HeldLive(t, k) && e != Expire(k);
      }
      UnseenEndExpired(t', events[1..], seen);
    }
  }
}
