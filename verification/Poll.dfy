/** Long polling against concurrent mutations. Each region held under the store's or the subscriber list's lock is
    one step; a mutation sets the stamp and then notifies, all under the store's lock, so a version check cannot
    fall between the two while a subscribe or a cancel can. All mutations read the clock under that lock but the
    collector, which reads it before it waits for the lock: its stamp may be older than the one it replaces. */
module Poll {
  datatype Phase = Subscribed | Blocked | Returned

  /** joined: how many mutations had notified when the waiter subscribed. checked: how many when it checked. */
  datatype Waiter = Waiter(since: int, phase: Phase, joined: nat, checked: nat)

  /** clock: the latest reading. reading: the collector's, while it waits for the lock. */
  datatype Sys = Sys(
    clock: int,
    collecting: bool,
    reading: int,
    updatedAt: int,
    mutating: bool,
    notified: seq<int>,
    nextChannel: nat,
    subscribers: seq<nat>,
    tokens: set<nat>,
    waiters: map<nat, Waiter>)

  datatype Event =
    | Subscribe(since: int)
    | CheckVersion(ch: nat)
    | SetStamp(now: int)
    | ReadClock(now: int)
    | CollectStamp
    | CollectNothing
    | Notify
    | Receive(ch: nat)
    | GiveUp(ch: nat)
    | Cancel(ch: nat)

  function Start(updatedAt: int): Sys {
    Sys(updatedAt, false, updatedAt, updatedAt, false, [], 0, [], {}, map[])
  }

  predicate InPhase(s: Sys, ch: nat, p: Phase) {
    ch in s.waiters && s.waiters[ch].phase == p
  }

  /** The clock does not run backwards. */
  predicate Enabled(s: Sys, e: Event) {
    match e
    case Subscribe(_) => true
    case CheckVersion(ch) => InPhase(s, ch, Subscribed) && !s.mutating
    case SetStamp(now) => !s.mutating && now >= s.clock
    case ReadClock(now) => !s.collecting && now >= s.clock
    case CollectStamp => s.collecting && !s.mutating
    case CollectNothing => s.collecting && !s.mutating
    case Notify => s.mutating
    case Receive(ch) => InPhase(s, ch, Blocked) && ch in s.tokens
    case GiveUp(ch) => InPhase(s, ch, Blocked)
    case Cancel(ch) => InPhase(s, ch, Returned)
  }

  /** The first occurrence of c taken out. */
  function Without<T(==)>(cs: seq<T>, c: T): seq<T> {
    if cs == [] then [] else if cs[0] == c then cs[1..] else [cs[0]] + Without(cs[1..], c)
  }

  function Next(s: Sys, e: Event): Sys
    requires Enabled(s, e)
  {
    match e
    case Subscribe(since) =>
      s.(nextChannel := s.nextChannel + 1, subscribers := s.subscribers + [s.nextChannel],
         waiters := s.waiters[s.nextChannel := Waiter(since, Subscribed, |s.notified|, 0)])
    case CheckVersion(ch) =>
      var w := s.waiters[ch];
      s.(waiters := s.waiters[ch :=
           w.(phase := if s.updatedAt > w.since then Returned else Blocked, checked := |s.notified|)])
    case SetStamp(now) => s.(clock := now, updatedAt := now, mutating := true)
    case ReadClock(now) => s.(clock := now, collecting := true, reading := now)
    case CollectStamp => s.(updatedAt := s.reading, mutating := true, collecting := false)
    case CollectNothing => s.(collecting := false)
    case Notify =>
      s.(mutating := false, notified := s.notified + [s.updatedAt], tokens := s.tokens + (set c | c in s.subscribers))
    case Receive(ch) =>
      s.(tokens := s.tokens - {ch}, waiters := s.waiters[ch := s.waiters[ch].(phase := Returned)])
    case GiveUp(ch) => s.(waiters := s.waiters[ch := s.waiters[ch].(phase := Returned)])
    case Cancel(ch) => s.(subscribers := Without(s.subscribers, ch))
  }

  // ---------------------------------------------------------------- the invariant

  ghost predicate Inv(s: Sys) {
    && (forall c | c in s.waiters :: c < s.nextChannel)
    && (forall c | c in s.subscribers :: c in s.waiters)
    && (forall i, j | 0 <= i < j < |s.subscribers| :: s.subscribers[i] != s.subscribers[j])
    && (forall c | c in s.tokens :: c < s.nextChannel)
    && s.updatedAt <= s.clock && (s.collecting ==> s.reading <= s.clock)
    && (!s.mutating && s.notified != [] ==> s.notified[|s.notified| - 1] == s.updatedAt)
    && (forall c | c in s.waiters :: WaiterInv(s, c, s.waiters[c]))
  }

  ghost predicate WaiterInv(s: Sys, c: nat, w: Waiter) {
    && w.joined <= |s.notified| && w.checked <= |s.notified|
    && (!w.phase.Returned? ==> c in s.subscribers)
    && (!w.phase.Returned? ==> (c in s.tokens <==> w.joined < |s.notified|))
    && (w.phase.Blocked? ==> w.joined <= w.checked && (w.checked > 0 ==> s.notified[w.checked - 1] <= w.since))
  }

  /** With no channel listed twice, cancelling takes out that channel and leaves all others in order. */
  lemma {:induction false} CancelRemovesOnlyItsOwn<T>(cs: seq<T>, c: T, d: T)
    requires forall i, j | 0 <= i < j < |cs| :: cs[i] != cs[j]
    ensures d in Without(cs, c) <==> d in cs && d != c
    ensures |Without(cs, c)| == |cs| - (if c in cs then 1 else 0)
    ensures forall i, j | 0 <= i < j < |Without(cs, c)| :: Without(cs, c)[i] != Without(cs, c)[j]
  {
    if cs != [] && cs[0] != c {
      var rest := Without(cs[1..], c);
      CancelRemovesOnlyItsOwn(cs[1..], c, cs[0]);
      CancelRemovesOnlyItsOwn(cs[1..], c, d);
      assert cs[0] !in rest;
      assert Without(cs, c) == [cs[0]] + rest;
    }
  }

  lemma NextKeepsWaiters(s: Sys, e: Event, c: nat)
    requires Inv(s) && Enabled(s, e) && !e.Cancel? && c in Next(s, e).waiters
    ensures WaiterInv(Next(s, e), c, Next(s, e).waiters[c])
  {
    assert s.nextChannel !in s.subscribers;
    if c in s.waiters { assert WaiterInv(s, c, s.waiters[c]); }
  }

  lemma NextKeepsInv(s: Sys, e: Event)
    requires Inv(s) && Enabled(s, e)
    ensures Inv(Next(s, e))
  {
    var s' := Next(s, e);
    match e
    case Cancel(ch) => CancelKeepsInv(s, ch);
    case _ =>
      assert s.nextChannel !in s.subscribers;
      forall i | 0 <= i < |s.subscribers| ensures s.subscribers[i] in s.subscribers {}
      forall c | c in s'.waiters ensures WaiterInv(s', c, s'.waiters[c]) { NextKeepsWaiters(s, e, c); }
  }

  lemma CancelKeepsInv(s: Sys, ch: nat)
    requires Inv(s) && InPhase(s, ch, Returned)
    ensures Inv(s.(subscribers := Without(s.subscribers, ch)))
  {
    var s' := s.(subscribers := Without(s.subscribers, ch));
    CancelRemovesOnlyItsOwn(s.subscribers, ch, ch);
    forall c | c in s'.subscribers ensures c in s.waiters { CancelRemovesOnlyItsOwn(s.subscribers, ch, c); }
    forall c | c in s.waiters ensures WaiterInv(s', c, s.waiters[c]) {
      assert WaiterInv(s, c, s.waiters[c]);
      CancelRemovesOnlyItsOwn(s.subscribers, ch, c);
    }
  }

  ghost predicate Reaches(s: Sys, events: seq<Event>, s': Sys)
    decreases |events|
  {
    if events == [] then s == s' else Enabled(s, events[0]) && Reaches(Next(s, events[0]), events[1..], s')
  }

  lemma {:induction false} ReachesInv(s: Sys, events: seq<Event>, s': Sys)
    requires Inv(s) && Reaches(s, events, s')
    ensures Inv(s')
    decreases |events|
  {
    if events != [] {
      NextKeepsInv(s, events[0]);
      ReachesInv(Next(s, events[0]), events[1..], s');
    }
  }

  // ---------------------------------------------------------------- no lost wake-up

  /** The stamp in force: the last mutation's, or the loaded one. */
  function LastStamp(updatedAt: int, s: Sys): int {
    if s.notified == [] then updatedAt else s.notified[|s.notified| - 1]
  }

  lemma StampInForce(updatedAt: int, events: seq<Event>, s: Sys)
    requires Reaches(Start(updatedAt), events, s) && !s.mutating
    ensures s.updatedAt == LastStamp(updatedAt, s)
  {
    ReachesInv(Start(updatedAt), events, s);
    if s.notified == [] { FirstStampStays(Start(updatedAt), events, s); }
  }

  lemma {:induction false} FirstStampStays(s: Sys, events: seq<Event>, s': Sys)
    requires Reaches(s, events, s') && s'.notified == [] && !s'.mutating
    ensures s.notified == [] && s'.updatedAt == s.updatedAt
    ensures !s.mutating
    decreases |events|
  {
    if events != [] { FirstStampStays(Next(s, events[0]), events[1..], s'); }
  }

  /** In every interleaving, for a waiter that has not returned: its channel holds a token exactly if some mutation
      notified after its subscribe; and the version check, if still to come, returns exactly if the stamp in force is
      newer than the waiter's version. */
  lemma EveryMutationIsVisibleOrSignalled(updatedAt: int, events: seq<Event>, s: Sys, ch: nat)
    requires Reaches(Start(updatedAt), events, s)
    requires ch in s.waiters && !s.waiters[ch].phase.Returned?
    ensures ch in s.tokens <==> s.waiters[ch].joined < |s.notified|
    ensures InPhase(s, ch, Subscribed) && !s.mutating ==>
              (InPhase(Next(s, CheckVersion(ch)), ch, Returned) <==>
               LastStamp(updatedAt, s) > s.waiters[ch].since)
  {
    ReachesInv(Start(updatedAt), events, s);
    assert WaiterInv(s, ch, s.waiters[ch]);
    if !s.mutating { StampInForce(updatedAt, events, s); }
  }

  /** Exactly when a version check goes to sleep without a wake-up on its way: no mutation has notified since the
      subscribe, and the stamp in force is not newer than the version. */
  lemma CheckSleepsIff(updatedAt: int, events: seq<Event>, s: Sys, ch: nat)
    requires Reaches(Start(updatedAt), events, s) && Enabled(s, CheckVersion(ch))
    ensures var s', w := Next(s, CheckVersion(ch)), s.waiters[ch];
            (InPhase(s', ch, Blocked) && ch !in s'.tokens) <==>
            w.joined == |s.notified| && LastStamp(updatedAt, s) <= w.since
  {
    ReachesInv(Start(updatedAt), events, s);
    assert WaiterInv(s, ch, s.waiters[ch]);
    StampInForce(updatedAt, events, s);
  }

  /** News for a waiter: a completed mutation with a stamp newer than its version. */
  ghost predicate News(s: Sys, ch: nat) {
    ch in s.waiters && exists i :: 0 <= i < |s.notified| && s.notified[i] > s.waiters[ch].since
  }

  /** The waiter is going to return: it can receive at once, or its check returns or finds a token. */
  ghost predicate WillReturn(s: Sys, ch: nat)
    requires ch in s.waiters && !s.mutating
  {
    match s.waiters[ch].phase
    case Returned => true
    case Blocked => Enabled(s, Receive(ch))
    case Subscribed =>
      var s' := Next(s, CheckVersion(ch));
      InPhase(s', ch, Returned) || Enabled(s', Receive(ch))
  }

  /** A waiter with news is woken if and only if a mutation notified since it subscribed, or the stamp in force is
      newer than its version; unconditionally so for news from after the subscribe. */
  lemma NewsWakesIff(updatedAt: int, events: seq<Event>, s: Sys, ch: nat)
    requires Reaches(Start(updatedAt), events, s) && !s.mutating && News(s, ch) && !InPhase(s, ch, Returned)
    ensures WillReturn(s, ch) <==>
            s.waiters[ch].joined < |s.notified| || LastStamp(updatedAt, s) > s.waiters[ch].since
  {
    ReachesInv(Start(updatedAt), events, s);
    assert WaiterInv(s, ch, s.waiters[ch]);
    StampInForce(updatedAt, events, s);
  }

  /** The stamps came in order. */
  ghost predicate InOrder(s: Sys) {
    forall i, j | 0 <= i < j < |s.notified| :: s.notified[i] <= s.notified[j]
  }

  /** No waiter sleeps through news while the stamps came in order. */
  lemma NoLostWakeup(updatedAt: int, events: seq<Event>, s: Sys, ch: nat)
    requires Reaches(Start(updatedAt), events, s) && !s.mutating && News(s, ch) && InOrder(s)
    ensures WillReturn(s, ch)
  {
    if !InPhase(s, ch, Returned) {
      NewsWakesIff(updatedAt, events, s, ch);
      var i :| 0 <= i < |s.notified| && s.notified[i] > s.waiters[ch].since;
      assert LastStamp(updatedAt, s) >= s.notified[i];
    }
  }

  /** A mutation keeps the stamps in order exactly if it is no collector whose reading is older than the last stamp. */
  lemma NotifyKeepsOrderIff(updatedAt: int, events: seq<Event>, s: Sys, e: Event)
    requires Reaches(Start(updatedAt), events, s) && InOrder(s) && Enabled(s, e) && (e.SetStamp? || e.CollectStamp?)
    ensures Enabled(Next(s, e), Notify)
    ensures InOrder(Next(Next(s, e), Notify)) <==>
            !(e.CollectStamp? && s.notified != [] && s.reading < s.notified[|s.notified| - 1])
  {
    ReachesInv(Start(updatedAt), events, s);
    var s' := Next(Next(s, e), Notify);
    if s.notified != [] {
      var n := |s.notified|;
      assert s'.notified[n - 1] == s.notified[n - 1] && s'.notified[n] == s'.updatedAt;
    }
  }

  /** A waiter that is blocked without a token: nothing notified since it subscribed, and the stamp in force was not
      newer than its version. */
  lemma BlockedMeansUpToDate(updatedAt: int, events: seq<Event>, s: Sys, ch: nat)
    requires Reaches(Start(updatedAt), events, s) && InPhase(s, ch, Blocked)
    ensures ch !in s.tokens <==> s.waiters[ch].joined == |s.notified|
    ensures ch !in s.tokens && s.notified != [] ==> LastStamp(updatedAt, s) <= s.waiters[ch].since
  {
    ReachesInv(Start(updatedAt), events, s);
    assert WaiterInv(s, ch, s.waiters[ch]);
  }

  /** Two mutations within one clock reading: a waiter that learned the first stamp and subscribes after the second
      falls asleep without a token, and the second mutation is missed. */
  function EqualStamps(): seq<Event> {
    [SetStamp(5), Notify, SetStamp(5), Notify, Subscribe(5), CheckVersion(0)]
  }

  lemma EqualStampsAreMissed()
    ensures exists s :: Reaches(Start(0), EqualStamps(), s) && s.notified == [5, 5] && InPhase(s, 0, Blocked) &&
                        0 !in s.tokens
  {
    var s0 := Start(0);
    var s1 := Next(s0, SetStamp(5));
    var s2 := Next(s1, Notify);
    var s3 := Next(s2, SetStamp(5));
    var s4 := Next(s3, Notify);
    var s5 := Next(s4, Subscribe(5));
    var s6 := Next(s5, CheckVersion(0));
    var e := EqualStamps();
    assert e[1..][1..] == e[2..] && e[2..][1..] == e[3..] && e[3..][1..] == e[4..] && e[4..][1..] == e[5..] && e[5..][1..] == [];
    assert Reaches(s6, [], s6) && Reaches(s5, e[5..], s6) && Reaches(s4, e[4..], s6) && Reaches(s3, e[3..], s6);
    assert Reaches(s2, e[2..], s6) && Reaches(s1, e[1..], s6) && Reaches(s0, e, s6);
  }

  /** The collector reads the clock at 4 and waits for the lock; stamps 5 and 6 come first, and then its own. A waiter
      that knows of 5 falls asleep without a token, and the mutation of 6 is missed, though no clock ran backwards. */
  function OldReading(): seq<Event> {
    [ReadClock(4), SetStamp(5), Notify, SetStamp(6), Notify, CollectStamp, Notify, Subscribe(5), CheckVersion(0)]
  }

  /** The state after the first seven of them. */
  function OldReadingStamped(): Sys {
    Sys(6, false, 4, 4, false, [5, 6, 4], 0, [], {}, map[])
  }

  lemma OldReadingStart(end: Sys)
    requires Reaches(OldReadingStamped(), OldReading()[7..], end)
    ensures Reaches(Start(0), OldReading(), end)
  {
    var e := OldReading();
    var s3 := Sys(5, true, 4, 5, false, [5], 0, [], {}, map[]);
    assert (set c | c in s3.subscribers) == {};
    var s4 := Next(s3, SetStamp(6));
    var s5 := Next(s4, Notify);
    var s6 := Next(s5, CollectStamp);
    assert Next(s6, Notify) == OldReadingStamped();
    assert e[3..][1..] == e[4..] && e[4..][1..] == e[5..] && e[5..][1..] == e[6..] && e[6..][1..] == e[7..];
    assert Reaches(s6, e[6..], end) && Reaches(s5, e[5..], end) && Reaches(s4, e[4..], end) && Reaches(s3, e[3..], end);
    OldReadingFirst(s3, end);
  }

  lemma OldReadingFirst(s3: Sys, end: Sys)
    requires s3 == Sys(5, true, 4, 5, false, [5], 0, [], {}, map[]) && Reaches(s3, OldReading()[3..], end)
    ensures Reaches(Start(0), OldReading(), end)
  {
    var e := OldReading();
    var s1 := Next(Start(0), ReadClock(4));
    var s2 := Next(s1, SetStamp(5));
    assert Next(s2, Notify) == s3;
    assert e[1..][1..] == e[2..] && e[2..][1..] == e[3..];
    assert Reaches(s2, e[2..], end) && Reaches(s1, e[1..], end);
  }

  lemma OldReadingHidesNews()
    ensures exists s :: Reaches(Start(0), OldReading(), s) && s.notified == [5, 6, 4] && News(s, 0) &&
                        InPhase(s, 0, Blocked) && 0 !in s.tokens
  {
    var e, s7 := OldReading(), OldReadingStamped();
    var s8 := Next(s7, Subscribe(5));
    var s9 := Next(s8, CheckVersion(0));
    assert e[7..][1..] == e[8..] && e[8..][1..] == [];
    assert Reaches(s9, [], s9) && Reaches(s8, e[8..], s9) && Reaches(s7, e[7..], s9);
    OldReadingStart(s9);
    assert s9.notified[1] > s9.waiters[0].since;
  }

  /** Every wait can end: by a token, which is used up, or by giving up; then the waiter cancels. */
  lemma WaitsEnd(s: Sys, ch: nat)
    requires Inv(s) && InPhase(s, ch, Blocked)
    ensures Enabled(s, GiveUp(ch)) && (Enabled(s, Receive(ch)) <==> ch in s.tokens)
    ensures InPhase(Next(s, GiveUp(ch)), ch, Returned) && Enabled(Next(s, GiveUp(ch)), Cancel(ch))
    ensures ch in s.tokens ==>
              var s' := Next(s, Receive(ch));
              ch !in s'.tokens && InPhase(s', ch, Returned) && Enabled(s', Cancel(ch))
  {
  }

  /** A cancel takes out its own channel only: every other waiter stays subscribed, with its token. */
  lemma CancelTouchesNoOtherWaiter(updatedAt: int, events: seq<Event>, s: Sys, ch: nat, other: nat)
    requires Reaches(Start(updatedAt), events, s) && Enabled(s, Cancel(ch))
    ensures var s' := Next(s, Cancel(ch));
            ch !in s'.subscribers && s'.tokens == s.tokens &&
            (other != ch ==> (other in s'.subscribers <==> other in s.subscribers))
  {
    ReachesInv(Start(updatedAt), events, s);
    CancelRemovesOnlyItsOwn(s.subscribers, ch, ch);
    CancelRemovesOnlyItsOwn(s.subscribers, ch, other);
  }
}
