/** An established channel: two keys, a send counter and a replay window. */
module Sessions {
  import opened Words
  import opened Crypto
  import opened Replay

  /** Seconds. */
  const SESSION_LIFETIME := 120
  const GRACE_PERIOD := 30

  /** What a session amounts to at one moment. */
  datatype Channel = Channel(sendKey: Term, recvKey: Term, counter: u64, window: Window)

  function NewChannel(sendKey: Term, recvKey: Term): Channel {
    Channel(sendKey, recvKey, 0, Fresh())
  }

  function Ciphertext(key: Term, counter: u64, packet: seq<int>): Term {
    Sealed(key, counter, Payload(packet), Empty)
  }

  function AfterSeal(ch: Channel): Channel {
    ch.(counter := (ch.counter + 1) % TWO64)
  }

  /** What Decrypt returns: the window is asked first, then the tag. The window is locked for the check and again for
      the advance, so calls interleave in between. */
  function Unsealed(ch: Channel, counter: u64, box: Term): Result<Term> {
    if Accepts(ch.window, counter) then Open(ch.recvKey, counter, box, Empty) else Err
  }

  // ---------------------------------------------------------------- one session over time

  /** The regions of the calls on a session: a Decrypt is a check, which changes nothing, and an advance. */
  datatype Call = Encrypt(packet: seq<int>) | Check(counter: u64, box: Term) | Advance(counter: u64)

  function After(ch: Channel, calls: seq<Call>): Channel {
    if calls == [] then ch
    else
      var before := After(ch, calls[..|calls| - 1]);
      match calls[|calls| - 1]
      case Encrypt(_) => AfterSeal(before)
      case Check(_, _) => before
      case Advance(c) => before.(window := Advanced(before.window, c))
  }

  /** The counters handed out, oldest first. */
  function Counters(ch: Channel, calls: seq<Call>): seq<u64> {
    if calls == [] then []
    else
      var before := calls[..|calls| - 1];
      Counters(ch, before) + (if calls[|calls| - 1].Encrypt? then [After(ch, before).counter] else [])
  }

  lemma {:induction false} CountersCountUp(ch: Channel, calls: seq<Call>)
    ensures After(ch, calls).counter == (ch.counter + |Counters(ch, calls)|) % TWO64
    ensures forall i | 0 <= i < |Counters(ch, calls)| :: Counters(ch, calls)[i] == (ch.counter + i) % TWO64
  {
    if calls != [] { CountersCountUp(ch, calls[..|calls| - 1]); }
  }

  /** The counters whose packets were accepted, oldest first. */
  function Accepted(calls: seq<Call>): seq<u64> {
    if calls == [] then []
    else Accepted(calls[..|calls| - 1]) +
         if calls[|calls| - 1].Advance? then [calls[|calls| - 1].counter] else []
  }

  /** The window of a new session is that of the accepted counters alone; the keys stay. */
  lemma {:induction false} WindowIsOfTheAccepted(sendKey: Term, recvKey: Term, calls: seq<Call>)
    ensures var ch := After(NewChannel(sendKey, recvKey), calls);
            ch.window == Run(Fresh(), Accepted(calls)) && ch.sendKey == sendKey && ch.recvKey == recvKey
  {
    if calls != [] {
      var front := calls[..|calls| - 1];
      WindowIsOfTheAccepted(sendKey, recvKey, front);
      var cs := Accepted(front);
      if calls[|calls| - 1].Advance? {
        assert (cs + [calls[|calls| - 1].counter])[..|cs|] == cs;
      } else {
        assert Accepted(calls) == cs;
      }
    }
  }

  /** Two Encrypt calls on a session that is not rotated share a counter only across 2^64 calls. */
  lemma CountersShareOnlyOnWrap(ch: Channel, calls: seq<Call>, i: nat, j: nat)
    requires i < j < |Counters(ch, calls)|
    ensures Counters(ch, calls)[i] == Counters(ch, calls)[j] <==> (j - i) % TWO64 == 0
  {
    CountersCountUp(ch, calls);
  }

  // ---------------------------------------------------------------- how long a session is used

  /** What is done with a session, and when. */
  datatype Use = Seals(at: int) | Unseals(at: int) | Rotates(at: int)

  /** When the keys in force were made: sealing and opening do not move that moment, new keys do. */
  function KeysFrom(made: int, uses: seq<Use>): int {
    if uses == [] then made
    else if uses[|uses| - 1].Rotates? then uses[|uses| - 1].at
    else KeysFrom(made, uses[..|uses| - 1])
  }

  predicate Forward(uses: seq<Use>) {
    forall i, j | 0 <= i < j < |uses| :: uses[i].at <= uses[j].at
  }

  /** The i-th use comes at most 150 seconds after the keys then in force were made. */
  predicate InTime(made: int, uses: seq<Use>, i: nat)
    requires i < |uses|
  {
    uses[i].at - KeysFrom(made, uses[..i]) <= 150
  }

  lemma {:induction false} NothingElseMovesIt(made: int, uses: seq<Use>, i: nat, j: nat)
    requires i <= j <= |uses| && forall k | i <= k < j :: !uses[k].Rotates?
    ensures KeysFrom(made, uses[..j]) == KeysFrom(made, uses[..i])
  {
    if i < j {
      NothingElseMovesIt(made, uses, i, j - 1);
      assert uses[..j][..j - 1] == uses[..j - 1];
    }
  }

  /** Once a session is too old to seal it stays so, however it is used, until its keys are replaced; from then on it
      seals for another 150 seconds. */
  lemma ExpiredUntilRotated(made: int, uses: seq<Use>, i: nat, j: nat)
    requires Forward(uses) && i < j < |uses|
    ensures !InTime(made, uses, i) && (forall k | i <= k < j :: !uses[k].Rotates?) ==> !InTime(made, uses, j)
    ensures uses[i].Rotates? && (forall k | i < k < j :: !uses[k].Rotates?) ==>
              (InTime(made, uses, j) <==> uses[j].at - uses[i].at <= 150)
  {
    if forall k | i < k < j :: !uses[k].Rotates? {
      NothingElseMovesIt(made, uses, i + 1, j);
      assert uses[..i + 1][..i] == uses[..i];
      assert uses[i].at <= uses[j].at;
    }
  }

  class Session {
    var sendKey: Term
    var recvKey: Term
    var sendCounter: u64
    const replayWin: ReplayWindow
    var createdAt: int
    var lastUsed: int

    ghost const Repr: set<object>

    ghost predicate Valid()
      reads this, replayWin
    {
      Repr == {this, replayWin, replayWin.bitmap} && replayWin.Valid()
    }

    ghost function View(): Channel
      reads this, replayWin, replayWin.bitmap
      requires Valid()
    {
      Channel(sendKey, recvKey, sendCounter, replayWin.View())
    }

    constructor (sendKey: Term, recvKey: Term, now: int)
      ensures Valid() && fresh(Repr) && View() == NewChannel(sendKey, recvKey)
      ensures createdAt == lastUsed == now
    {
      this.sendKey, this.recvKey, sendCounter := sendKey, recvKey, 0;
      createdAt, lastUsed := now, now;
      var win := new ReplayWindow();
      replayWin := win;
      Repr := {this, win, win.bitmap};
    }

    method Encrypt(packet: seq<int>, now: int) returns (counter: u64, box: Term)
      requires Valid()
      modifies this
      ensures Valid() && View() == AfterSeal(old(View())) && createdAt == old(createdAt)
      ensures counter == old(sendCounter) && box == Ciphertext(sendKey, counter, packet)
    {
      counter := sendCounter;
      sendCounter := (sendCounter + 1) % TWO64;
      box := Sealed(sendKey, counter, Payload(packet), Empty);
      lastUsed := now;
    }

    /** The first half: the check of the window, then the tag. */
    method CheckAndOpen(counter: u64, box: Term) returns (plain: Result<Term>)
      requires Valid()
      ensures plain == Unsealed(View(), counter, box)
    {
      var acceptable := replayWin.Check(counter);
      if !acceptable { return Err; }
      plain := Open(recvKey, counter, box, Empty);
    }

    /** The second half, whatever happened to the window in between. */
    method Accept(counter: u64, now: int)
      requires Valid()
      modifies Repr
      ensures Valid() && createdAt == old(createdAt)
      ensures View() == old(View().(window := Advanced(View().window, counter)))
    {
      replayWin.Advance(counter);
      lastUsed := now;
    }

    /** Both halves with nothing in between. */
    method Decrypt(counter: u64, box: Term, now: int) returns (plain: Result<Term>)
      requires Valid()
      modifies Repr
      ensures Valid() && createdAt == old(createdAt)
      ensures plain == old(Unsealed(View(), counter, box))
      ensures View() == if plain.Err? then old(View()) else old(View().(window := Advanced(View().window, counter)))
    {
      plain := CheckAndOpen(counter, box);
      if plain.Ok? { Accept(counter, now); }
    }

    method Rotate(newSendKey: Term, newRecvKey: Term, now: int)
      requires Valid()
      modifies Repr
      ensures Valid() && View() == NewChannel(newSendKey, newRecvKey) && createdAt == now
    {
      sendKey, recvKey := newSendKey, newRecvKey;
      createdAt := now;
      sendCounter := 0;
      replayWin.Reset();
    }

    /** Two and a half minutes after the keys were made. */
    predicate IsExpired(now: int): (r: bool)
      reads this
      ensures r <==> now > createdAt + 150
    {
      now - createdAt > SESSION_LIFETIME + GRACE_PERIOD
    }
  }
}
