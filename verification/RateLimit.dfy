/** The token bucket per client address, over the reals. One handler looks its bucket up, refills it and takes a
    token in three separately locked regions; handlers and the cleanup interleave. */
module RateLimit {
  /** Seconds a bucket may idle before cleanup deletes it. */
  const IDLE_LIMIT := 300.0

  datatype Bucket = Bucket(tokens: real, lastFill: real)

  /** A handler between lookup and take: which bucket object it holds, and whether it has refilled it. */
  datatype Hold = Hold(bucket: nat, filled: bool)

  /** The limiter seen by one address: all bucket objects ever made for it, the one in the map (-1 if none),
      and the handlers under way. */
  datatype Limiter = Limiter(buckets: seq<Bucket>, cur: int, held: map<nat, Hold>)

  /** t is the time of the region; the code reads the clock in all but Take. */
  datatype Event =
    | Lookup(req: nat, t: real)
    | Refill(req: nat, t: real)
    | Take(req: nat, t: real)
    | Cleanup(t: real)

  const NO_BUCKETS := Limiter([], -1, map[])

  ghost predicate Wellformed(l: Limiter) {
    -1 <= l.cur < |l.buckets| && forall r | r in l.held :: l.held[r].bucket < |l.buckets|
  }

  predicate Enabled(l: Limiter, e: Event) {
    match e
    case Lookup(r, _) => r !in l.held
    case Refill(r, _) => r in l.held && !l.held[r].filled
    case Take(r, _) => r in l.held && l.held[r].filled
    case Cleanup(_) => true
  }

  /** rps tokens a second over d seconds: d * rps. */
  function Inflow(d: real, rps: nat): real {
    if rps == 0 then 0.0 else d + Inflow(d, rps - 1)
  }

  /** The limit of an interval: a full bucket and what flows in. */
  function Limit(a: real, b: real, rps: nat): real {
    rps as real + Inflow(b - a, rps)
  }

  function Filled(b: Bucket, t: real, rps: nat): Bucket {
    var tokens := b.tokens + Inflow(t - b.lastFill, rps);
    Bucket(if tokens > rps as real then rps as real else tokens, t)
  }

  function Next(l: Limiter, e: Event, rps: nat): Limiter
    requires Wellformed(l) && Enabled(l, e)
  {
    match e
    case Lookup(r, t) =>
      if l.cur >= 0 then l.(held := l.held[r := Hold(l.cur, false)])
      else Limiter(l.buckets + [Bucket(rps as real, t)], |l.buckets|, l.held[r := Hold(|l.buckets|, false)])
    case Refill(r, t) =>
      var i := l.held[r].bucket;
      l.(buckets := l.buckets[i := Filled(l.buckets[i], t, rps)], held := l.held[r := Hold(i, true)])
    case Take(r, _) =>
      var i := l.held[r].bucket;
      var b := l.buckets[i];
      l.(buckets := if Admits(l, e) then l.buckets[i := b.(tokens := b.tokens - 1.0)] else l.buckets,
         held := l.held - {r})
    case Cleanup(t) => if Idle(l, t) then l.(cur := -1) else l
  }

  predicate Idle(l: Limiter, t: real)
    requires Wellformed(l)
  {
    l.cur >= 0 && t - l.buckets[l.cur].lastFill > IDLE_LIMIT
  }

  predicate Admits(l: Limiter, e: Event)
    requires Wellformed(l) && Enabled(l, e)
  {
    e.Take? && l.buckets[l.held[e.req].bucket].tokens >= 1.0
  }

  /** A run with the clock running forward from c. */
  ghost predicate IsRun(l: Limiter, events: seq<Event>, c: real, rps: nat)
    decreases |events|
  {
    Wellformed(l) &&
    (events == [] ||
     (Enabled(l, events[0]) && events[0].t >= c && IsRun(Next(l, events[0], rps), events[1..], events[0].t, rps)))
  }

  predicate AdmitsWithin(l: Limiter, e: Event, a: real, b: real)
    requires Wellformed(l) && Enabled(l, e)
  {
    Admits(l, e) && a <= e.t <= b
  }

  /** How many requests take their token in [a, b]. */
  ghost function Admitted(l: Limiter, events: seq<Event>, c: real, rps: nat, a: real, b: real): nat
    requires IsRun(l, events, c, rps)
    decreases |events|
  {
    if events == [] then 0
    else
      (if AdmitsWithin(l, events[0], a, b) then 1 else 0) +
      Admitted(Next(l, events[0], rps), events[1..], events[0].t, rps, a, b)
  }

  /** A take is in time if a refill at that moment would not have been capped; a cleanup is in order if no handler
      has yet to refill the bucket it deletes. */
  predicate SafeStep(l: Limiter, e: Event, rps: nat)
    requires Wellformed(l) && Enabled(l, e)
  {
    match e
    case Take(r, t) =>
      var k := l.buckets[l.held[r].bucket];
      Admits(l, e) ==> k.tokens + Inflow(t - k.lastFill, rps) <= rps as real
    case Cleanup(t) => Idle(l, t) ==> forall r | r in l.held && l.held[r].bucket == l.cur :: l.held[r].filled
    case _ => true
  }

  ghost predicate AllSafe(l: Limiter, events: seq<Event>, c: real, rps: nat)
    requires IsRun(l, events, c, rps)
    decreases |events|
  {
    events == [] ||
    (SafeStep(l, events[0], rps) && AllSafe(Next(l, events[0], rps), events[1..], events[0].t, rps))
  }

  // ---------------------------------------------------------------- arithmetic

  lemma {:induction false} InflowIsProduct(d: real, rps: nat)
    ensures Inflow(d, rps) == d * rps as real
  {
    if rps > 0 { InflowIsProduct(d, rps - 1); }
  }

  lemma LimitIs(a: real, b: real, rps: nat)
    ensures Limit(a, b, rps) == rps as real + (b - a) * rps as real
  {
    InflowIsProduct(b - a, rps);
  }

  lemma {:induction false} NonNegative(x: real, rps: nat)
    requires x >= 0.0
    ensures Inflow(x, rps) >= 0.0
  {
    if rps > 0 { NonNegative(x, rps - 1); }
  }

  lemma {:induction false} Sums(x: real, y: real, rps: nat)
    ensures Inflow(x + y, rps) == Inflow(x, rps) + Inflow(y, rps)
  {
    if rps > 0 { Sums(x, y, rps - 1); }
  }

  lemma {:induction false} NoTime(rps: nat)
    ensures Inflow(0.0, rps) == 0.0
  {
    if rps > 0 { NoTime(rps - 1); }
  }

  lemma {:induction false} AtLeastOnce(d: real, rps: nat)
    requires d >= 1.0
    ensures Inflow(d, rps) >= rps as real
  {
    if rps > 0 { AtLeastOnce(d, rps - 1); }
  }

  /** After the idle limit a bucket is full again. */
  lemma IdleIsFull(k: Bucket, t: real, rps: nat)
    requires k.tokens >= 0.0 && t - k.lastFill > IDLE_LIMIT
    ensures k.tokens + Inflow(t - k.lastFill, rps) >= rps as real
  {
    AtLeastOnce(t - k.lastFill, rps);
  }

  // ---------------------------------------------------------------- the invariant

  /** Tokens lie in [0, rps], and the bucket was filled in the past. */
  ghost predicate Sound(k: Bucket, c: real, rps: nat) {
    0.0 <= k.tokens <= rps as real && k.lastFill <= c
  }

  /** A handler holds the bucket of the map, or has already refilled one that was deleted since. */
  ghost predicate SoundHold(l: Limiter, h: Hold, c: real, rps: nat) {
    h.bucket < |l.buckets| && Sound(l.buckets[h.bucket], c, rps) &&
    (h.bucket == l.cur || (h.filled && c - l.buckets[h.bucket].lastFill > IDLE_LIMIT))
  }

  ghost predicate Inv(l: Limiter, c: real, rps: nat) {
    -1 <= l.cur < |l.buckets| && (l.cur >= 0 ==> Sound(l.buckets[l.cur], c, rps)) &&
    forall r | r in l.held :: SoundHold(l, l.held[r], c, rps)
  }

  lemma InvLater(l: Limiter, c: real, t: real, rps: nat)
    requires Inv(l, c, rps) && c <= t
    ensures Inv(l, t, rps) && Wellformed(l)
  {
    forall r | r in l.held ensures SoundHold(l, l.held[r], t, rps) { assert SoundHold(l, l.held[r], c, rps); }
  }

  /** A handler whose bucket was deleted is not admitted in time. */
  lemma StaleIsLate(l: Limiter, r: nat, t: real, rps: nat)
    requires Inv(l, t, rps) && Wellformed(l) && Enabled(l, Take(r, t)) && Admits(l, Take(r, t))
    requires l.held[r].bucket != l.cur
    ensures !SafeStep(l, Take(r, t), rps)
  {
    assert SoundHold(l, l.held[r], t, rps);
    var k := l.buckets[l.held[r].bucket];
    AtLeastOnce(t - k.lastFill, rps);
  }

  lemma NextKeepsInv(l: Limiter, e: Event, c: real, rps: nat)
    requires Inv(l, c, rps) && Wellformed(l) && Enabled(l, e) && e.t >= c && SafeStep(l, e, rps)
    ensures Inv(Next(l, e, rps), e.t, rps)
  {
    InvLater(l, c, e.t, rps);
    var l' := Next(l, e, rps);
    match e
    case Lookup(r, t) =>
      forall q | q in l'.held ensures SoundHold(l', l'.held[q], t, rps) {
        if q != r { assert SoundHold(l, l.held[q], t, rps); }
      }
    case Refill(r, t) =>
      assert SoundHold(l, l.held[r], t, rps);
      FilledIsSound(l.buckets[l.cur], t, rps);
      forall q | q in l'.held ensures SoundHold(l', l'.held[q], t, rps) {
        assert SoundHold(l, l.held[q], t, rps);
      }
    case Take(r, t) =>
      assert SoundHold(l, l.held[r], t, rps);
      if Admits(l, e) && l.held[r].bucket != l.cur { StaleIsLate(l, r, t, rps); }
      forall q | q in l'.held ensures SoundHold(l', l'.held[q], t, rps) {
        assert SoundHold(l, l.held[q], t, rps);
      }
    case Cleanup(t) =>
      forall q | q in l'.held ensures SoundHold(l', l'.held[q], t, rps) {
        assert SoundHold(l, l.held[q], t, rps);
      }
  }

  lemma FilledIsSound(k: Bucket, t: real, rps: nat)
    requires Sound(k, t, rps)
    ensures Sound(Filled(k, t, rps), t, rps)
    ensures Filled(Filled(k, t, rps), t, rps) == Filled(k, t, rps)
  {
    NoTime(rps);
    NonNegative(t - k.lastFill, rps);
  }

  // ---------------------------------------------------------------- the bound

  /** What the bucket of the map would hold after a fill at clock c. */
  function Level(l: Limiter, c: real, rps: nat): real
    requires Wellformed(l)
  {
    if l.cur >= 0 then Filled(l.buckets[l.cur], c, rps).tokens else rps as real
  }

  /** What a limiter at clock c may still admit in [a, b]. */
  function Budget(l: Limiter, c: real, rps: nat, a: real, b: real): real
    requires Wellformed(l)
  {
    if c > b then 0.0
    else if c < a then rps as real + Inflow(b - a, rps)
    else Level(l, c, rps) + Inflow(b - c, rps)
  }

  lemma LevelRises(l: Limiter, c: real, t: real, rps: nat)
    requires Inv(l, c, rps) && Wellformed(l) && c <= t
    ensures 0.0 <= Level(l, t, rps) <= Level(l, c, rps) + Inflow(t - c, rps)
    ensures Level(l, t, rps) <= rps as real
  {
    NonNegative(t - c, rps);
    if l.cur >= 0 {
      var f := l.buckets[l.cur].lastFill;
      NonNegative(t - f, rps);
      Sums(c - f, t - c, rps);
      assert t - f == (c - f) + (t - c);
    }
  }

  lemma Flow(a: real, c: real, t: real, b: real, rps: nat)
    requires a <= c <= t <= b
    ensures 0.0 <= Inflow(b - t, rps) <= Inflow(b - c, rps) <= Inflow(b - a, rps)
    ensures Inflow(t - c, rps) + Inflow(b - t, rps) == Inflow(b - c, rps)
  {
    NonNegative(b - t, rps);
    NonNegative(t - c, rps);
    NonNegative(c - a, rps);
    Sums(t - c, b - t, rps);
    Sums(c - a, b - c, rps);
    assert b - c == (t - c) + (b - t) && b - a == (c - a) + (b - c);
  }

  lemma BudgetBounds(l: Limiter, c: real, rps: nat, a: real, b: real)
    requires Inv(l, c, rps) && Wellformed(l) && a <= b
    ensures 0.0 <= Budget(l, c, rps, a, b) <= rps as real + Inflow(b - a, rps)
  {
    LevelRises(l, c, c, rps);
    Flow(a, a, b, b, rps);
    if a <= c <= b { Flow(a, c, c, b, rps); }
  }

  lemma WaitPays(l: Limiter, c: real, t: real, rps: nat, a: real, b: real)
    requires Inv(l, c, rps) && Wellformed(l) && c <= t && a <= b
    ensures Budget(l, t, rps, a, b) <= Budget(l, c, rps, a, b)
  {
    InvLater(l, c, t, rps);
    BudgetBounds(l, c, rps, a, b);
    BudgetBounds(l, t, rps, a, b);
    if a <= c && t <= b {
      LevelRises(l, c, t, rps);
      Flow(a, c, t, b, rps);
    }
  }

  /** A step leaves the level as it is, but for the token it hands out. */
  lemma StepSpends(l: Limiter, e: Event, rps: nat)
    requires Inv(l, e.t, rps) && Wellformed(l) && Enabled(l, e) && SafeStep(l, e, rps)
    requires Wellformed(Next(l, e, rps))
    ensures Level(Next(l, e, rps), e.t, rps) + (if Admits(l, e) then 1.0 else 0.0) == Level(l, e.t, rps)
  {
    match e
    case Lookup(_, _) => NoTime(rps);
    case Refill(r, t) =>
      assert SoundHold(l, l.held[r], t, rps);
      FilledIsSound(l.buckets[l.cur], t, rps);
    case Take(r, t) =>
      assert SoundHold(l, l.held[r], t, rps);
      if Admits(l, e) {
        if l.held[r].bucket != l.cur { StaleIsLate(l, r, t, rps); }
        TokenLess(l.buckets[l.cur], t, rps);
      }
    case Cleanup(t) =>
      if Idle(l, t) { IdleIsFull(l.buckets[l.cur], t, rps); }
  }

  lemma TokenLess(k: Bucket, t: real, rps: nat)
    requires k.tokens + Inflow(t - k.lastFill, rps) <= rps as real
    ensures Filled(k.(tokens := k.tokens - 1.0), t, rps).tokens + 1.0 == Filled(k, t, rps).tokens
  {
  }

  /** Each step pays for what it admits: the budget falls by at least one token per admission. */
  lemma BudgetPays(l: Limiter, e: Event, c: real, rps: nat, a: real, b: real)
    requires Inv(l, c, rps) && Wellformed(l) && Enabled(l, e) && e.t >= c && SafeStep(l, e, rps) && a <= b
    requires Wellformed(Next(l, e, rps))
    ensures Budget(Next(l, e, rps), e.t, rps, a, b) + (if AdmitsWithin(l, e, a, b) then 1.0 else 0.0)
            <= Budget(l, c, rps, a, b)
  {
    WaitPays(l, c, e.t, rps, a, b);
    InvLater(l, c, e.t, rps);
    BudgetBounds(l, e.t, rps, a, b);
    StepSpends(l, e, rps);
  }

  lemma {:induction false} AdmittedWithinBudget(l: Limiter, events: seq<Event>, c: real, rps: nat, a: real, b: real)
    requires Inv(l, c, rps) && IsRun(l, events, c, rps) && AllSafe(l, events, c, rps) && a <= b
    ensures Admitted(l, events, c, rps, a, b) as real <= Budget(l, c, rps, a, b) <= rps as real + Inflow(b - a, rps)
    decreases |events|
  {
    BudgetBounds(l, c, rps, a, b);
    if events != [] {
      var e := events[0];
      NextKeepsInv(l, e, c, rps);
      AdmittedWithinBudget(Next(l, e, rps), events[1..], e.t, rps, a, b);
      BudgetPays(l, e, c, rps, a, b);
    }
  }

  /** From one address at most rps + rps * (b - a) requests are admitted in any interval [a, b], in every
      interleaving of safe steps. */
  lemma AdmissionsAreLimited(events: seq<Event>, c: real, rps: nat, a: real, b: real)
    requires IsRun(NO_BUCKETS, events, c, rps) && AllSafe(NO_BUCKETS, events, c, rps) && a <= b
    ensures Admitted(NO_BUCKETS, events, c, rps, a, b) as real <= Limit(a, b, rps)
  {
    AdmittedWithinBudget(NO_BUCKETS, events, c, rps, a, b);
  }

  /** With no clock reading between a bucket's last refill and the take, the take is safe. */
  lemma PromptTakesAreSafe(l: Limiter, r: nat, t: real, rps: nat)
    requires Inv(l, t, rps) && Wellformed(l) && Enabled(l, Take(r, t))
    requires t == l.buckets[l.held[r].bucket].lastFill
    ensures SafeStep(l, Take(r, t), rps)
  {
    NoTime(rps);
    assert SoundHold(l, l.held[r], t, rps);
  }

  // ---------------------------------------------------------------- the bound with late takes

  /** The cleanup deletes a bucket only while no handler holds one. */
  predicate QuietStep(l: Limiter, e: Event)
    requires Wellformed(l)
  {
    e.Cleanup? && Idle(l, e.t) ==> l.held == map[]
  }

  ghost predicate Quiet(l: Limiter, events: seq<Event>, c: real, rps: nat)
    requires IsRun(l, events, c, rps)
    decreases |events|
  {
    events == [] ||
    (QuietStep(l, events[0]) && Quiet(Next(l, events[0], rps), events[1..], events[0].t, rps))
  }

  /** All handlers hold the bucket of the map. */
  ghost predicate SharedInv(l: Limiter, c: real, rps: nat) {
    Wellformed(l) && (l.cur >= 0 ==> Sound(l.buckets[l.cur], c, rps)) &&
    forall r | r in l.held :: l.held[r].bucket == l.cur
  }

  lemma QuietKeepsShared(l: Limiter, e: Event, c: real, rps: nat)
    requires SharedInv(l, c, rps) && Enabled(l, e) && e.t >= c && QuietStep(l, e)
    ensures SharedInv(Next(l, e, rps), e.t, rps)
  {
    if l.cur >= 0 { NonNegative(e.t - l.buckets[l.cur].lastFill, rps); }
  }

  /** What may still be admitted in [a, b] when takes may come late: the tokens of now, one capped refill more if
      there has been none since a, and what flows in after that. */
  function LateBudget(l: Limiter, c: real, rps: nat, a: real, b: real): real
    requires Wellformed(l)
  {
    if c > b then 0.0
    else if c < a then rps as real + rps as real + Inflow(b - a, rps)
    else if l.cur < 0 then rps as real + Inflow(b - c, rps)
    else LateValue(l.buckets[l.cur], c, rps, a, b)
  }

  function LateValue(k: Bucket, c: real, rps: nat, a: real, b: real): real {
    if k.lastFill >= a then k.tokens + Inflow(b - k.lastFill, rps)
    else k.tokens + rps as real + Inflow(b - c, rps)
  }

  lemma LateValueBounds(k: Bucket, c: real, rps: nat, a: real, b: real)
    requires Sound(k, c, rps) && a <= c <= b
    ensures 0.0 <= LateValue(k, c, rps, a, b) <= rps as real + rps as real + Inflow(b - a, rps)
  {
    Flow(a, c, c, b, rps);
    if k.lastFill >= a { Flow(a, k.lastFill, c, b, rps); }
  }

  lemma LateBounds(l: Limiter, c: real, rps: nat, a: real, b: real)
    requires SharedInv(l, c, rps) && a <= b
    ensures 0.0 <= LateBudget(l, c, rps, a, b) <= rps as real + rps as real + Inflow(b - a, rps)
  {
    Flow(a, a, b, b, rps);
    if a <= c <= b {
      Flow(a, c, c, b, rps);
      if l.cur >= 0 { LateValueBounds(l.buckets[l.cur], c, rps, a, b); }
    }
  }

  lemma LateValueFalls(k: Bucket, c: real, t: real, rps: nat, a: real, b: real)
    requires a <= c <= t <= b
    ensures LateValue(k, t, rps, a, b) <= LateValue(k, c, rps, a, b)
  {
    Flow(a, c, t, b, rps);
  }

  lemma LateWaitPays(l: Limiter, c: real, t: real, rps: nat, a: real, b: real)
    requires SharedInv(l, c, rps) && c <= t && a <= b
    ensures LateBudget(l, t, rps, a, b) <= LateBudget(l, c, rps, a, b)
  {
    LateBounds(l, c, rps, a, b);
    LateBounds(l, t, rps, a, b);
    if a <= c && t <= b {
      Flow(a, c, t, b, rps);
      if l.cur >= 0 { LateValueFalls(l.buckets[l.cur], c, t, rps, a, b); }
    }
  }

  lemma LateFillPays(k: Bucket, t: real, rps: nat, a: real, b: real)
    requires Sound(k, t, rps) && a <= t <= b
    ensures LateValue(Filled(k, t, rps), t, rps, a, b) <= LateValue(k, t, rps, a, b)
  {
    Flow(a, t, t, b, rps);
    if k.lastFill >= a { Flow(a, k.lastFill, t, b, rps); }
  }

  lemma LateDeletePays(k: Bucket, t: real, rps: nat, a: real, b: real)
    requires Sound(k, t, rps) && a <= t <= b && t - k.lastFill > IDLE_LIMIT
    ensures rps as real + Inflow(b - t, rps) <= LateValue(k, t, rps, a, b)
  {
    IdleIsFull(k, t, rps);
    if k.lastFill >= a { Flow(a, k.lastFill, t, b, rps); }
  }

  lemma LateTakePays(k: Bucket, t: real, rps: nat, a: real, b: real)
    ensures LateValue(k.(tokens := k.tokens - 1.0), t, rps, a, b) + 1.0 == LateValue(k, t, rps, a, b)
  {
  }

  lemma LateBudgetPays(l: Limiter, e: Event, c: real, rps: nat, a: real, b: real)
    requires SharedInv(l, c, rps) && Enabled(l, e) && e.t >= c && QuietStep(l, e) && a <= b
    requires Wellformed(Next(l, e, rps))
    ensures LateBudget(Next(l, e, rps), e.t, rps, a, b) + (if AdmitsWithin(l, e, a, b) then 1.0 else 0.0)
            <= LateBudget(l, c, rps, a, b)
  {
    LateWaitPays(l, c, e.t, rps, a, b);
    LateBounds(l, e.t, rps, a, b);
    if a <= e.t <= b && l.cur >= 0 {
      var k := l.buckets[l.cur];
      match e {
        case Refill(r, t) =>
          assert l.held[r].bucket == l.cur;
          LateFillPays(k, t, rps, a, b);
        case Take(r, t) =>
          assert l.held[r].bucket == l.cur;
          assert Next(l, e, rps).cur == l.cur;
          assert Next(l, e, rps).buckets[l.cur] == if Admits(l, e) then k.(tokens := k.tokens - 1.0) else k;
          LateTakePays(k, t, rps, a, b);
        case Cleanup(t) => if Idle(l, t) { LateDeletePays(k, t, rps, a, b); }
        case _ =>
      }
    }
  }

  lemma {:induction false} AdmittedWithinLateBudget(l: Limiter, events: seq<Event>, c: real, rps: nat, a: real, b: real)
    requires SharedInv(l, c, rps) && IsRun(l, events, c, rps) && Quiet(l, events, c, rps) && a <= b
    ensures Admitted(l, events, c, rps, a, b) as real <= LateBudget(l, c, rps, a, b)
    decreases |events|
  {
    LateBounds(l, c, rps, a, b);
    if events != [] {
      var e := events[0];
      QuietKeepsShared(l, e, c, rps);
      AdmittedWithinLateBudget(Next(l, e, rps), events[1..], e.t, rps, a, b);
      LateBudgetPays(l, e, c, rps, a, b);
    }
  }

  /** However late handlers take their tokens, at most 2 * rps + rps * (b - a) requests are admitted in any interval
      [a, b], as long as no cleanup deletes a bucket that a handler holds. */
  lemma LateAdmissionsAreLimited(events: seq<Event>, c: real, rps: nat, a: real, b: real)
    requires IsRun(NO_BUCKETS, events, c, rps) && Quiet(NO_BUCKETS, events, c, rps) && a <= b
    ensures Admitted(NO_BUCKETS, events, c, rps, a, b) as real <= rps as real + Limit(a, b, rps)
  {
    AdmittedWithinLateBudget(NO_BUCKETS, events, c, rps, a, b);
    LateBounds(NO_BUCKETS, c, rps, a, b);
  }
}
