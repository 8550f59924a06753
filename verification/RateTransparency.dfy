/** The limiter with its cleanup against the limiter that never deletes a bucket. */
module RateTransparency {
  import opened RateLimit
  import opened RateExact

  /** The same events decide alike on l, where cleanups run, and on m, where no bucket is ever deleted. */
  ghost predicate SameDecisions(l: Limiter, m: Limiter, events: seq<Event>, c: real, rps: nat)
    requires IsRun(l, events, c, rps)
    decreases |events|
  {
    events == [] ||
    var e := events[0];
    Wellformed(m) && Enabled(m, e) && (Admits(l, e) <==> Admits(m, e)) &&
    SameDecisions(Next(l, e, rps), if e.Cleanup? then m else Next(m, e, rps), events[1..], e.t, rps)
  }

  /** Any fill at clock c or later leaves k full. */
  ghost predicate FullBy(k: Bucket, c: real, rps: nat) {
    k.lastFill <= c && k.tokens + Inflow(c - k.lastFill, rps) >= rps as real
  }

  lemma FullStays(k: Bucket, c: real, t: real, rps: nat)
    requires FullBy(k, c, rps) && c <= t
    ensures FullBy(k, t, rps)
  {
    NonNegative(t - c, rps);
    Sums(c - k.lastFill, t - c, rps);
    assert t - k.lastFill == (c - k.lastFill) + (t - c);
  }

  lemma FullFills(k: Bucket, t: real, rps: nat)
    requires FullBy(k, t, rps)
    ensures Filled(k, t, rps) == Bucket(rps as real, t)
  {
  }

  ghost predicate SameHolds(l: Limiter, m: Limiter) {
    l.held.Keys == m.held.Keys &&
    forall r | r in l.held :: l.held[r].filled == m.held[r].filled
  }

  ghost predicate NoneFilled(l: Limiter) {
    forall r | r in l.held :: !l.held[r].filled
  }

  /** l and m hold the same bucket, or buckets that the next fill makes the same and that none has filled yet. */
  ghost predicate Alike(l: Limiter, m: Limiter, c: real, rps: nat)
    requires Wellformed(l) && Wellformed(m)
  {
    if m.cur < 0 then l.cur < 0
    else if l.cur >= 0 && l.buckets[l.cur] == m.buckets[m.cur] then true
    else
      NoneFilled(l) && FullBy(m.buckets[m.cur], c, rps) &&
      if l.cur >= 0 then FullBy(l.buckets[l.cur], c, rps) else l.held == map[]
  }

  ghost predicate Sim(l: Limiter, m: Limiter, c: real, rps: nat) {
    SharedInv(l, c, rps) && SharedInv(m, c, rps) && SameHolds(l, m) && Alike(l, m, c, rps)
  }

  lemma SimTime(l: Limiter, m: Limiter, c: real, t: real, rps: nat)
    requires Sim(l, m, c, rps) && c <= t
    ensures Sim(l, m, t, rps)
  {
    if m.cur >= 0 && FullBy(m.buckets[m.cur], c, rps) { FullStays(m.buckets[m.cur], c, t, rps); }
    if l.cur >= 0 && FullBy(l.buckets[l.cur], c, rps) { FullStays(l.buckets[l.cur], c, t, rps); }
  }

  lemma SimRefill(l: Limiter, m: Limiter, r: nat, t: real, rps: nat)
    requires Sim(l, m, t, rps) && Enabled(l, Refill(r, t))
    ensures Enabled(m, Refill(r, t)) && Sim(Next(l, Refill(r, t), rps), Next(m, Refill(r, t), rps), t, rps)
  {
    var e := Refill(r, t);
    QuietKeepsShared(l, e, t, rps);
    QuietKeepsShared(m, e, t, rps);
    if l.buckets[l.cur] != m.buckets[m.cur] {
      FullFills(l.buckets[l.cur], t, rps);
      FullFills(m.buckets[m.cur], t, rps);
    }
  }

  lemma SimLookup(l: Limiter, m: Limiter, r: nat, t: real, rps: nat)
    requires Sim(l, m, t, rps) && Enabled(l, Lookup(r, t))
    ensures Enabled(m, Lookup(r, t)) && Sim(Next(l, Lookup(r, t), rps), Next(m, Lookup(r, t), rps), t, rps)
  {
    NoTime(rps);
    QuietKeepsShared(l, Lookup(r, t), t, rps);
    QuietKeepsShared(m, Lookup(r, t), t, rps);
  }

  lemma SimTake(l: Limiter, m: Limiter, r: nat, t: real, rps: nat)
    requires Sim(l, m, t, rps) && Enabled(l, Take(r, t))
    ensures Enabled(m, Take(r, t)) && (Admits(l, Take(r, t)) <==> Admits(m, Take(r, t)))
    ensures Sim(Next(l, Take(r, t), rps), Next(m, Take(r, t), rps), t, rps)
  {
    QuietKeepsShared(l, Take(r, t), t, rps);
    QuietKeepsShared(m, Take(r, t), t, rps);
  }

  lemma SimCleanup(l: Limiter, m: Limiter, t: real, rps: nat)
    requires Sim(l, m, t, rps) && QuietStep(l, Cleanup(t))
    ensures Sim(Next(l, Cleanup(t), rps), m, t, rps)
  {
    if Idle(l, t) { IdleIsFull(l.buckets[l.cur], t, rps); }
  }

  lemma {:induction false} SimRun(l: Limiter, m: Limiter, events: seq<Event>, c: real, rps: nat)
    requires Sim(l, m, c, rps) && IsRun(l, events, c, rps) && Quiet(l, events, c, rps)
    ensures SameDecisions(l, m, events, c, rps)
    decreases |events|
  {
    if events != [] {
      var e := events[0];
      SimTime(l, m, c, e.t, rps);
      match e {
        case Lookup(r, t) => SimLookup(l, m, r, t, rps);
        case Refill(r, t) => SimRefill(l, m, r, t, rps);
        case Take(r, t) => SimTake(l, m, r, t, rps);
        case Cleanup(t) => SimCleanup(l, m, t, rps);
      }
      SimRun(Next(l, e, rps), if e.Cleanup? then m else Next(m, e, rps), events[1..], e.t, rps);
    }
  }

  /** Deleting idle buckets that no handler holds changes no decision, now or later. */
  lemma CleanupIsTransparent(events: seq<Event>, c: real, rps: nat)
    requires IsRun(NO_BUCKETS, events, c, rps) && Quiet(NO_BUCKETS, events, c, rps)
    ensures SameDecisions(NO_BUCKETS, NO_BUCKETS, events, c, rps)
  {
    SimRun(NO_BUCKETS, NO_BUCKETS, events, c, rps);
  }

  // ---------------------------------------------------------------- exactness

  /** However the run goes on after a cleanup at t, with no further cleanup of a held bucket, it decides as m does. */
  ghost predicate NeverDiffers(l: Limiter, m: Limiter, t: real, rps: nat) {
    forall rest | IsRun(l, rest, t, rps) && Quiet(l, rest, t, rps) :: SameDecisions(l, m, rest, t, rps)
  }

  /** A cleanup that deletes a bucket changes no decision of any continuation exactly when no handler holds one. */
  lemma CleanupIsTransparentIff(l: Limiter, m: Limiter, t: real, rps: nat)
    requires Sim(l, m, t, rps) && Idle(l, t) && rps > 0
    ensures NeverDiffers(Next(l, Cleanup(t), rps), m, t, rps) <==> l.held == map[]
  {
    var l' := Next(l, Cleanup(t), rps);
    if l.held == map[] {
      SimCleanup(l, m, t, rps);
      forall rest | IsRun(l', rest, t, rps) && Quiet(l', rest, t, rps) ensures SameDecisions(l', m, rest, t, rps) {
        SimRun(l', m, rest, t, rps);
      }
    } else {
      var r :| r in l.held;
      var rest := Difference(l, m, r, t, rps);
      assert Differs(l', m, rest, t, rps);
    }
  }

  lemma DiffersLater(l: Limiter, m: Limiter, e: Event, rest: seq<Event>, c: real, rps: nat)
    requires Wellformed(l) && Enabled(l, e) && e.t >= c && !e.Cleanup? && IsRun(Next(l, e, rps), rest, e.t, rps)
    requires Wellformed(m) && Enabled(m, e)
    requires Quiet(Next(l, e, rps), rest, e.t, rps) && !SameDecisions(Next(l, e, rps), Next(m, e, rps), rest, e.t, rps)
    ensures IsRun(l, [e] + rest, c, rps) && Quiet(l, [e] + rest, c, rps) && !SameDecisions(l, m, [e] + rest, c, rps)
  {
    assert ([e] + rest)[1..] == rest;
  }

  lemma DiffersNow(l: Limiter, m: Limiter, e: Event, c: real, rps: nat)
    requires Wellformed(l) && Enabled(l, e) && e.t >= c && e.Take? && Wellformed(Next(l, e, rps))
    requires Wellformed(m) && Enabled(m, e) && Admits(l, e) != Admits(m, e)
    ensures IsRun(l, [e] + [], c, rps) && Quiet(l, [e] + [], c, rps) && !SameDecisions(l, m, [e] + [], c, rps)
  {
  }

  /** The tail of a run decides differently from t on. */
  ghost predicate Differs(l: Limiter, m: Limiter, events: seq<Event>, t: real, rps: nat) {
    Wellformed(m) && IsRun(l, events, t, rps) && Quiet(l, events, t, rps) && !SameDecisions(l, m, events, t, rps)
  }

  /** Both limiters give out x tokens in a burst; what differs after it differs. */
  lemma {:induction false} BurstDiffers(l: Limiter, m: Limiter, h: nat, x: nat, t: real, rps: nat, rest: seq<Event>)
    requires Wellformed(l) && Wellformed(m) && h !in l.held && h !in m.held && 0 < x <= rps
    requires Filled(Found(l, t, rps), t, rps) == Bucket(x as real, t) == Filled(Found(m, t, rps), t, rps)
    requires Differs(Put(l, Bucket(0.0, t)), Put(m, Bucket(0.0, t)), rest, t, rps)
    ensures Differs(l, m, Burst(h, x, t, rest), t, rps)
    decreases x
  {
    var k, k' := Bucket(x as real, t), Bucket((x - 1) as real, t);
    var tail := Burst(h, x - 1, t, rest);
    if x > 1 {
      NoTime(rps);
      assert Put(Put(l, k'), Bucket(0.0, t)) == Put(l, Bucket(0.0, t));
      assert Put(Put(m, k'), Bucket(0.0, t)) == Put(m, Bucket(0.0, t));
      BurstDiffers(Put(l, k'), Put(m, k'), h, x - 1, t, rps, rest);
    }
    ThreeSteps(l, h, x, t, rps);
    ThreeSteps(m, h, x, t, rps);
    DiffersLater(Refilled(l, h, k), Refilled(m, h, k), Take(h, t), tail, t, rps);
    DiffersLater(Looked(l, h, t, rps), Looked(m, h, t, rps), Refill(h, t), [Take(h, t)] + tail, t, rps);
    DiffersLater(l, m, Lookup(h, t), [Refill(h, t)] + ([Take(h, t)] + tail), t, rps);
  }

  /** After others emptied the buckets of the maps, a handler refills the bucket deleted on l. */
  lemma OldBucketServes(l: Limiter, m: Limiter, r: nat, t: real, rps: nat)
    requires Wellformed(l) && Wellformed(m) && Enabled(l, Refill(r, t)) && Enabled(m, Refill(r, t)) && rps > 0
    requires Filled(l.buckets[l.held[r].bucket], t, rps) == Bucket(rps as real, t)
    requires m.buckets[m.held[r].bucket] == Bucket(0.0, t)
    ensures Differs(l, m, [Refill(r, t)] + ([Take(r, t)] + []), t, rps)
  {
    NoTime(rps);
    var l1, m1 := Next(l, Refill(r, t), rps), Next(m, Refill(r, t), rps);
    assert l1.buckets[l1.held[r].bucket] == Bucket(rps as real, t);
    assert m1.buckets[m1.held[r].bucket] == Bucket(0.0, t);
    DiffersNow(l1, m1, Take(r, t), t, rps);
    DiffersLater(l, m, Refill(r, t), [Take(r, t)] + [], t, rps);
  }

  /** Another handler refills the bucket that r holds on m, but a new one on l. */
  lemma RefilledOnM(l: Limiter, m: Limiter, h: nat, r: nat, t: real, rps: nat)
    requires Wellformed(l) && Wellformed(m) && h !in l.held && h !in m.held && l.cur < 0 <= m.cur && rps > 0
    requires Enabled(l, Take(r, t)) && Enabled(m, Take(r, t)) && !Admits(l, Take(r, t)) && m.held[r].bucket == m.cur
    requires Filled(m.buckets[m.cur], t, rps) == Bucket(rps as real, t)
    ensures Differs(l, m, [Lookup(h, t)] + ([Refill(h, t)] + ([Take(r, t)] + [])), t, rps)
  {
    NoTime(rps);
    ThreeSteps(l, h, rps, t, rps);
    ThreeSteps(m, h, rps, t, rps);
    var k := Bucket(rps as real, t);
    assert Refilled(l, h, k).buckets[l.held[r].bucket] == l.buckets[l.held[r].bucket];
    DiffersNow(Refilled(l, h, k), Refilled(m, h, k), Take(r, t), t, rps);
    DiffersLater(Looked(l, h, t, rps), Looked(m, h, t, rps), Refill(h, t), [Take(r, t)] + [], t, rps);
    DiffersLater(l, m, Lookup(h, t), [Refill(h, t)] + ([Take(r, t)] + []), t, rps);
  }

  lemma FullAtCleanup(l: Limiter, m: Limiter, t: real, rps: nat)
    requires Sim(l, m, t, rps) && Idle(l, t) && m.cur >= 0
    ensures Filled(l.buckets[l.cur], t, rps) == Bucket(rps as real, t)
    ensures Filled(m.buckets[m.cur], t, rps) == Bucket(rps as real, t)
  {
    IdleIsFull(l.buckets[l.cur], t, rps);
  }

  /** A continuation on which l, after its cleanup at t, and m decide differently. */
  lemma Difference(l: Limiter, m: Limiter, r: nat, t: real, rps: nat) returns (rest: seq<Event>)
    requires Sim(l, m, t, rps) && Idle(l, t) && rps > 0 && r in l.held
    ensures Differs(Next(l, Cleanup(t), rps), m, rest, t, rps)
  {
    var l', k := l.(cur := -1), Bucket(0.0, t);
    assert m.held[r].bucket == m.cur && l.held[r].bucket == l.cur;
    FullAtCleanup(l, m, t, rps);
    NoTime(rps);
    var h := SomeFresh(l.held.Keys);
    if !l.held[r].filled {
      rest := [Refill(r, t)] + ([Take(r, t)] + []);
      OldBucketServes(Put(l', k), Put(m, k), r, t, rps);
      BurstDiffers(l', m, h, rps, t, rps, rest);
      rest := Burst(h, rps, t, rest);
    } else if l.buckets[l.cur].tokens >= 1.0 {
      rest := [Take(r, t)] + [];
      DiffersNow(Put(l', k), Put(m, k), Take(r, t), t, rps);
      BurstDiffers(l', m, h, rps, t, rps, rest);
      rest := Burst(h, rps, t, rest);
    } else {
      RefilledOnM(l', m, h, r, t, rps);
      rest := [Lookup(h, t)] + ([Refill(h, t)] + ([Take(r, t)] + []));
    }
  }
}
