/** Exactly which steps can break the limit: for each unsafe one, a continuation of safe steps that overshoots. */
module RateExact {
  import opened RateLimit

  /** The events run from l and admit n requests in [a, b]; if safe, in safe steps. */
  ghost predicate Admitting(l: Limiter, events: seq<Event>, c: real, rps: nat, a: real, b: real, n: nat, safe: bool) {
    IsRun(l, events, c, rps) && Admitted(l, events, c, rps, a, b) == n && (safe ==> AllSafe(l, events, c, rps))
  }

  lemma StepAdds(l: Limiter, e: Event, rest: seq<Event>, c: real, rps: nat, a: real, b: real, n: nat,
                 safe: bool)
    requires Wellformed(l) && Enabled(l, e) && e.t >= c && (safe ==> SafeStep(l, e, rps))
    requires Admitting(Next(l, e, rps), rest, e.t, rps, a, b, n, safe)
    ensures Admitting(l, [e] + rest, c, rps, a, b, n + (if AdmitsWithin(l, e, a, b) then 1 else 0), safe)
  {
    assert ([e] + rest)[1..] == rest;
  }

  // ---------------------------------------------------------------- bursts

  /** The bucket that a lookup at t finds or makes. */
  function Found(l: Limiter, t: real, rps: nat): Bucket
    requires Wellformed(l)
  {
    if l.cur >= 0 then l.buckets[l.cur] else Bucket(rps as real, t)
  }

  function Put(l: Limiter, k: Bucket): Limiter
    requires Wellformed(l)
  {
    if l.cur >= 0 then l.(buckets := l.buckets[l.cur := k])
    else Limiter(l.buckets + [k], |l.buckets|, l.held)
  }

  /** n handlers one after the other, each from lookup to take, all at t. */
  function Burst(h: nat, n: nat, t: real, rest: seq<Event>): seq<Event> {
    if n == 0 then rest else [Lookup(h, t)] + ([Refill(h, t)] + ([Take(h, t)] + Burst(h, n - 1, t, rest)))
  }

  /** The states while one handler is under way. */
  function Looked(l: Limiter, h: nat, t: real, rps: nat): Limiter
    requires Wellformed(l)
  {
    var l' := Put(l, Found(l, t, rps));
    l'.(held := l.held[h := Hold(l'.cur, false)])
  }

  function Refilled(l: Limiter, h: nat, k: Bucket): Limiter
    requires Wellformed(l)
  {
    var l' := Put(l, k);
    l'.(held := l.held[h := Hold(l'.cur, true)])
  }

  lemma ThreeSteps(l: Limiter, h: nat, x: nat, t: real, rps: nat)
    requires Wellformed(l) && h !in l.held && x > 0
    requires Filled(Found(l, t, rps), t, rps) == Bucket(x as real, t)
    ensures Next(l, Lookup(h, t), rps) == Looked(l, h, t, rps)
    ensures Wellformed(Looked(l, h, t, rps)) && Enabled(Looked(l, h, t, rps), Refill(h, t))
    ensures var l2 := Refilled(l, h, Bucket(x as real, t));
            Next(Looked(l, h, t, rps), Refill(h, t), rps) == l2 && Wellformed(l2) && Enabled(l2, Take(h, t)) &&
            Admits(l2, Take(h, t)) && Next(l2, Take(h, t), rps) == Put(l, Bucket((x - 1) as real, t))
  {
    var l1, l2 := Looked(l, h, t, rps), Refilled(l, h, Bucket(x as real, t));
    assert Next(l, Lookup(h, t), rps).buckets == l1.buckets;
    assert Next(l1, Refill(h, t), rps).buckets == l2.buckets;
    assert l2.held - {h} == l.held;
    assert Next(l2, Take(h, t), rps).buckets == Put(l, Bucket((x - 1) as real, t)).buckets;
  }

  /** One handler takes a token from a bucket that a fill at t leaves with x. */
  lemma OneHandler(l: Limiter, h: nat, x: nat, t: real, c: real, rps: nat, a: real, b: real, rest: seq<Event>, n: nat,
                   safe: bool)
    requires Wellformed(l) && h !in l.held && c <= t && a <= t <= b && 0 < x <= rps
    requires Filled(Found(l, t, rps), t, rps) == Bucket(x as real, t)
    requires Admitting(Put(l, Bucket((x - 1) as real, t)), rest, t, rps, a, b, n, safe)
    ensures Admitting(l, [Lookup(h, t)] + ([Refill(h, t)] + ([Take(h, t)] + rest)), c, rps, a, b, n + 1, safe)
  {
    NoTime(rps);
    ThreeSteps(l, h, x, t, rps);
    var l1, l2 := Looked(l, h, t, rps), Refilled(l, h, Bucket(x as real, t));
    StepAdds(l2, Take(h, t), rest, t, rps, a, b, n, safe);
    StepAdds(l1, Refill(h, t), [Take(h, t)] + rest, t, rps, a, b, n + 1, safe);
    StepAdds(l, Lookup(h, t), [Refill(h, t)] + ([Take(h, t)] + rest), c, rps, a, b, n + 1, safe);
  }

  /** A bucket that a fill at t leaves with x tokens gives x of them away at t. */
  lemma {:induction false} BurstAdmits(l: Limiter, h: nat, x: nat, t: real, c: real, rps: nat, a: real, b: real,
                                       rest: seq<Event>, n: nat, safe: bool)
    requires Wellformed(l) && h !in l.held && c <= t && a <= t <= b && 0 < x <= rps
    requires Filled(Found(l, t, rps), t, rps) == Bucket(x as real, t)
    requires Admitting(Put(l, Bucket(0.0, t)), rest, t, rps, a, b, n, safe)
    ensures Admitting(l, Burst(h, x, t, rest), c, rps, a, b, n + x, safe)
    decreases x
  {
    var l' := Put(l, Bucket((x - 1) as real, t));
    if x > 1 {
      NoTime(rps);
      assert Put(l', Bucket(0.0, t)) == Put(l, Bucket(0.0, t));
      BurstAdmits(l', h, x - 1, t, t, rps, a, b, rest, n, safe);
    }
    OneHandler(l, h, x, t, c, rps, a, b, Burst(h, x - 1, t, rest), n + x - 1, safe);
  }

  lemma {:induction false} SomeFresh(s: set<nat>) returns (h: nat)
    ensures forall x | x in s :: x < h
  {
    if s == {} { return 0; }
    var x :| x in s;
    h := SomeFresh(s - {x});
    forall y | y in s && y != x ensures y < h { assert y in s - {x}; }
    if h <= x { h := x + 1; }
  }

  // ---------------------------------------------------------------- a late take

  /** The time to wait until a bucket that lacks d < 1 of a full one is full. */
  function Wait(d: real, rps: nat): (w: real)
    requires rps > 0
  {
    if d > 0.0 then d / rps as real else 0.0
  }

  lemma WaitFills(d: real, rps: nat)
    requires rps > 0 && d < 1.0
    ensures Wait(d, rps) >= 0.0 && d <= Inflow(Wait(d, rps), rps) < 1.0
  {
    InflowIsProduct(Wait(d, rps), rps);
    NoTime(rps);
  }

  /** A handler that takes a token of the map's bucket after a refill would have been capped. */
  lemma LateTakeOvershoots(l: Limiter, r: nat, t: real, c: real, rps: nat)
      returns (rest: seq<Event>, b: real)
    requires Inv(l, c, rps) && Wellformed(l) && Enabled(l, Take(r, t)) && t >= c && rps > 0
    requires !SafeStep(l, Take(r, t), rps) && l.held[r].bucket == l.cur
    ensures b >= t && IsRun(l, [Take(r, t)] + rest, c, rps) && AllSafe(Next(l, Take(r, t), rps), rest, t, rps)
    ensures Admitted(l, [Take(r, t)] + rest, c, rps, t, b) as real > Limit(t, b, rps)
  {
    var k, l' := l.buckets[l.cur], Next(l, Take(r, t), rps);
    var missing := rps as real + 1.0 - (k.tokens + Inflow(t - k.lastFill, rps));
    WaitFills(missing, rps);
    b := t + Wait(missing, rps);
    Sums(t - k.lastFill, b - t, rps);
    assert b - k.lastFill == (t - k.lastFill) + (b - t);
    assert l'.buckets[l'.cur] == k.(tokens := k.tokens - 1.0);
    assert Filled(Found(l', b, rps), b, rps) == Bucket(rps as real, b);
    var h := SomeFresh(l'.held.Keys);
    rest := Burst(h, rps, b, []);
    BurstAdmits(l', h, rps, b, t, rps, t, b, [], 0, true);
    assert ([Take(r, t)] + rest)[1..] == rest;
    assert AdmitsWithin(l, Take(r, t), t, b);
  }

  /** A handler that still has a token in hand of a bucket deleted since: others empty the new bucket first. */
  lemma StaleTakeOvershoots(l: Limiter, r: nat, c: real, rps: nat) returns (events: seq<Event>, t: real)
    requires Inv(l, c, rps) && Wellformed(l) && rps > 0
    requires r in l.held && l.held[r].filled && l.held[r].bucket != l.cur && l.buckets[l.held[r].bucket].tokens >= 1.0
    ensures t >= c && IsRun(l, events, c, rps) && Admitted(l, events, c, rps, t, t) == rps + 1
  {
    assert SoundHold(l, l.held[r], c, rps);
    t := c + 1.0;
    FullAfterASecond(l, c, rps);
    NoTime(rps);
    var h := SomeFresh(l.held.Keys);
    var l' := Put(l, Bucket(0.0, t));
    assert l'.buckets[l'.held[r].bucket] == l.buckets[l.held[r].bucket];
    StepAdds(l', Take(r, t), [], t, rps, t, t, 0, false);
    events := Burst(h, rps, t, [Take(r, t)] + []);
    BurstAdmits(l, h, rps, t, c, rps, t, t, [Take(r, t)] + [], 1, false);
  }

  lemma FullAfterASecond(l: Limiter, c: real, rps: nat)
    requires Inv(l, c, rps) && Wellformed(l)
    ensures Filled(Found(l, c + 1.0, rps), c + 1.0, rps) == Bucket(rps as real, c + 1.0)
  {
    NoTime(rps);
    if l.cur >= 0 { AtLeastOnce(c + 1.0 - l.buckets[l.cur].lastFill, rps); }
  }

  // ---------------------------------------------------------------- a cleanup too early

  /** A handler that has yet to refill the bucket which a cleanup deletes: others empty a new bucket first. */
  lemma EarlyCleanupOvershoots(l: Limiter, r: nat, t: real, c: real, rps: nat)
      returns (rest: seq<Event>)
    requires Inv(l, c, rps) && Wellformed(l) && t >= c && rps > 0
    requires Idle(l, t) && r in l.held && l.held[r].bucket == l.cur && !l.held[r].filled
    ensures IsRun(l, [Cleanup(t)] + rest, c, rps) && AllSafe(Next(l, Cleanup(t), rps), rest, t, rps)
    ensures Admitted(l, [Cleanup(t)] + rest, c, rps, t, t) == rps + 1
  {
    var l1, i := Next(l, Cleanup(t), rps), l.cur;
    var h := SomeFresh(l1.held.Keys);
    var last := [Refill(r, t)] + ([Take(r, t)] + []);
    var l2 := Put(l1, Bucket(0.0, t));
    OldBucketAdmits(l2, r, t, rps);
    NoTime(rps);
    rest := Burst(h, rps, t, last);
    BurstAdmits(l1, h, rps, t, t, rps, t, t, last, 1, true);
    assert ([Cleanup(t)] + rest)[1..] == rest;
  }

  lemma OldBucketAdmits(l: Limiter, r: nat, t: real, rps: nat)
    requires Wellformed(l) && r in l.held && !l.held[r].filled && rps > 0
    requires var k := l.buckets[l.held[r].bucket]; k.tokens >= 0.0 && t - k.lastFill > IDLE_LIMIT
    ensures Admitting(l, [Refill(r, t)] + ([Take(r, t)] + []), t, rps, t, t, 1, true)
  {
    var i := l.held[r].bucket;
    IdleIsFull(l.buckets[i], t, rps);
    NoTime(rps);
    var l1 := Next(l, Refill(r, t), rps);
    assert l1.buckets[i] == Bucket(rps as real, t);
    var l2 := Next(l1, Take(r, t), rps);
    assert Admitting(l2, [], t, rps, t, t, 0, true);
    StepAdds(l1, Take(r, t), [], t, rps, t, t, 0, true);
    StepAdds(l, Refill(r, t), [Take(r, t)] + [], t, rps, t, t, 1, true);
  }

  // ---------------------------------------------------------------- exactness

  /** However safe steps continue after e, the requests admitted from e on keep the limit in every interval. */
  ghost predicate KeepsLimit(l: Limiter, e: Event, c: real, rps: nat)
    requires Wellformed(l) && Enabled(l, e)
  {
    forall rest, a, b | a <= b && IsRun(l, [e] + rest, c, rps) && AllSafe(Next(l, e, rps), rest, e.t, rps) ::
      Admitted(l, [e] + rest, c, rps, a, b) as real <= Limit(a, b, rps)
  }

  /** In every state that safe steps reach, the next step can be relied on to keep the limit exactly when it is safe:
      a cleanup deletes no bucket that a handler has yet to refill, and a take from the bucket of the map comes before
      a refill would be capped. */
  lemma StepKeepsLimitIff(l: Limiter, e: Event, c: real, rps: nat)
    requires Inv(l, c, rps) && Wellformed(l) && Enabled(l, e) && e.t >= c && rps > 0
    requires e.Take? ==> l.held[e.req].bucket == l.cur
    ensures KeepsLimit(l, e, c, rps) <==> SafeStep(l, e, rps)
  {
    if SafeStep(l, e, rps) {
      forall rest, a, b | a <= b && IsRun(l, [e] + rest, c, rps) && AllSafe(Next(l, e, rps), rest, e.t, rps)
        ensures Admitted(l, [e] + rest, c, rps, a, b) as real <= Limit(a, b, rps)
      {
        assert ([e] + rest)[1..] == rest;
        AdmittedWithinBudget(l, [e] + rest, c, rps, a, b);
      }
    } else {
      UnsafeOvershoots(l, e, c, rps);
    }
  }

  lemma UnsafeOvershoots(l: Limiter, e: Event, c: real, rps: nat)
    requires Inv(l, c, rps) && Wellformed(l) && Enabled(l, e) && e.t >= c && rps > 0
    requires e.Take? ==> l.held[e.req].bucket == l.cur
    requires !SafeStep(l, e, rps)
    ensures !KeepsLimit(l, e, c, rps)
  {
    var rest, a, b := [], e.t, e.t;
    if e.Take? {
      rest, b := LateTakeOvershoots(l, e.req, e.t, c, rps);
    } else {
      var r :| r in l.held && l.held[r].bucket == l.cur && !l.held[r].filled;
      rest := EarlyCleanupOvershoots(l, r, e.t, c, rps);
      NoTime(rps);
    }
    assert Admitted(l, [e] + rest, c, rps, a, b) as real > Limit(a, b, rps);
  }

  // ---------------------------------------------------------------- two runs

  /** One handler refills at 0 and takes at 10, another looks up, refills and takes at 10, at one request per
      second: two admissions at one instant, with no cleanup at all. */
  lemma LateTakeAdmitsTwice()
    ensures var events := [Lookup(0, 0.0), Refill(0, 0.0), Lookup(1, 10.0), Take(0, 10.0), Refill(1, 10.0), Take(1, 10.0)];
            IsRun(NO_BUCKETS, events, 0.0, 1) && Quiet(NO_BUCKETS, events, 0.0, 1) &&
            Admitted(NO_BUCKETS, events, 0.0, 1, 10.0, 10.0) == 2 && Limit(10.0, 10.0, 1) == 1.0
  {
    var first := [Lookup(0, 0.0), Refill(0, 0.0)];
    var both := [Lookup(1, 10.0)] + ([Take(0, 10.0)] + ([Refill(1, 10.0)] + ([Take(1, 10.0)] + [])));
    var l2 := Limiter([Bucket(1.0, 0.0)], 0, map[0 := Hold(0, true)]);
    TwoAtTen(l2);
    var l1 := l2.(held := map[0 := Hold(0, false)]);
    assert Next(NO_BUCKETS, Lookup(0, 0.0), 1) == l1;
    assert Next(l1, Refill(0, 0.0), 1) == l2;
    StepAdds(l1, Refill(0, 0.0), both, 0.0, 1, 10.0, 10.0, 2, false);
    StepAdds(NO_BUCKETS, Lookup(0, 0.0), [Refill(0, 0.0)] + both, 0.0, 1, 10.0, 10.0, 2, false);
    assert [Lookup(0, 0.0)] + ([Refill(0, 0.0)] + both) ==
           [Lookup(0, 0.0), Refill(0, 0.0), Lookup(1, 10.0), Take(0, 10.0), Refill(1, 10.0), Take(1, 10.0)];
    NoCleanupIsQuiet(NO_BUCKETS, [Lookup(0, 0.0)] + ([Refill(0, 0.0)] + both), 0.0, 1);
  }

  lemma TwoAtTen(l2: Limiter)
    requires l2 == Limiter([Bucket(1.0, 0.0)], 0, map[0 := Hold(0, true)])
    ensures Admitting(l2, [Lookup(1, 10.0)] + ([Take(0, 10.0)] + ([Refill(1, 10.0)] + ([Take(1, 10.0)] + []))),
                      0.0, 1, 10.0, 10.0, 2, false)
  {
    var l3 := l2.(held := map[0 := Hold(0, true), 1 := Hold(0, false)]);
    var l4 := Limiter([Bucket(0.0, 0.0)], 0, map[1 := Hold(0, false)]);
    var l5 := Limiter([Bucket(1.0, 10.0)], 0, map[1 := Hold(0, true)]);
    assert Next(l2, Lookup(1, 10.0), 1) == l3;
    assert Next(l3, Take(0, 10.0), 1) == l4;
    assert Next(l4, Refill(1, 10.0), 1) == l5;
    StepAdds(l5, Take(1, 10.0), [], 10.0, 1, 10.0, 10.0, 0, false);
    StepAdds(l4, Refill(1, 10.0), [Take(1, 10.0)] + [], 10.0, 1, 10.0, 10.0, 1, false);
    StepAdds(l3, Take(0, 10.0), [Refill(1, 10.0)] + ([Take(1, 10.0)] + []), 10.0, 1, 10.0, 10.0, 1, false);
    StepAdds(l2, Lookup(1, 10.0), [Take(0, 10.0)] + ([Refill(1, 10.0)] + ([Take(1, 10.0)] + [])),
             0.0, 1, 10.0, 10.0, 2, false);
  }

  lemma {:induction false} NoCleanupIsQuiet(l: Limiter, events: seq<Event>, c: real, rps: nat)
    requires IsRun(l, events, c, rps) && forall e | e in events :: !e.Cleanup?
    ensures Quiet(l, events, c, rps)
    decreases |events|
  {
    if events != [] { NoCleanupIsQuiet(Next(l, events[0], rps), events[1..], events[0].t, rps); }
  }

  /** A handler looks up a bucket that has been idle for over five minutes, and the cleanup deletes it before the
      handler refills it: from the first request on, safe steps lead to such a cleanup, and it is unsafe. */
  lemma RaceIsReachable()
    ensures var events := [Lookup(0, 0.0), Refill(0, 0.0), Take(0, 0.0), Lookup(1, 301.0)];
            var l := Limiter([Bucket(0.0, 0.0)], 0, map[1 := Hold(0, false)]);
            Admitting(NO_BUCKETS, events, 0.0, 1, 301.0, 301.0, 0, true) && Inv(l, 301.0, 1) &&
            Next(Next(Next(Next(NO_BUCKETS, events[0], 1), events[1], 1), events[2], 1), events[3], 1) == l &&
            !SafeStep(l, Cleanup(301.0), 1)
  {
    var l1 := Limiter([Bucket(1.0, 0.0)], 0, map[0 := Hold(0, false)]);
    var l2 := l1.(held := map[0 := Hold(0, true)]);
    var l3 := Limiter([Bucket(0.0, 0.0)], 0, map[]);
    var l4 := Limiter([Bucket(0.0, 0.0)], 0, map[1 := Hold(0, false)]);
    assert Next(NO_BUCKETS, Lookup(0, 0.0), 1) == l1;
    assert Next(l1, Refill(0, 0.0), 1) == l2;
    assert Next(l2, Take(0, 0.0), 1) == l3;
    assert Next(l3, Lookup(1, 301.0), 1) == l4;
    StepAdds(l3, Lookup(1, 301.0), [], 0.0, 1, 301.0, 301.0, 0, true);
    StepAdds(l2, Take(0, 0.0), [Lookup(1, 301.0)] + [], 0.0, 1, 301.0, 301.0, 0, true);
    StepAdds(l1, Refill(0, 0.0), [Take(0, 0.0)] + ([Lookup(1, 301.0)] + []), 0.0, 1, 301.0, 301.0, 0, true);
    StepAdds(NO_BUCKETS, Lookup(0, 0.0), [Refill(0, 0.0)] + ([Take(0, 0.0)] + ([Lookup(1, 301.0)] + [])),
             0.0, 1, 301.0, 301.0, 0, true);
    assert [Lookup(0, 0.0)] + ([Refill(0, 0.0)] + ([Take(0, 0.0)] + ([Lookup(1, 301.0)] + []))) ==
           [Lookup(0, 0.0), Refill(0, 0.0), Take(0, 0.0), Lookup(1, 301.0)];
    assert 1 in l4.held && Idle(l4, 301.0);
  }

  /** From there two requests are admitted at one instant, at one request per second. */
  lemma RaceAdmitsTwice() returns (rest: seq<Event>)
    ensures var l := Limiter([Bucket(0.0, 0.0)], 0, map[1 := Hold(0, false)]);
            IsRun(l, [Cleanup(301.0)] + rest, 301.0, 1) &&
            Admitted(l, [Cleanup(301.0)] + rest, 301.0, 1, 301.0, 301.0) == 2 && Limit(301.0, 301.0, 1) == 1.0
  {
    RaceIsReachable();
    rest := EarlyCleanupOvershoots(Limiter([Bucket(0.0, 0.0)], 0, map[1 := Hold(0, false)]), 1, 301.0, 301.0, 1);
  }
}
