/** The WebSocket hub: one event loop that registers clients, fans messages out to their bounded send channels and
    evicts clients whose channel is full. */
module Hub {
  const SEND_SIZE := 256
  const BROADCAST_SIZE := 64

  /** A client's send channel: what waits in it, what the write pump has taken from it, whether it is closed, and
      whether it was ever closed twice or written after closing (a panic in Go). */
  datatype Channel = Channel(queue: seq<string>, taken: seq<string>, closed: bool, panicked: bool)

  const OPEN := Channel([], [], false, false)

  function Queued(ch: Channel): seq<string> { ch.taken + ch.queue }

  predicate HasRoom(ch: Channel) { |ch.queue| < SEND_SIZE }

  /** A non-blocking send: a full channel drops the message. */
  function Send(ch: Channel, m: string): Channel {
    if ch.closed then ch.(panicked := true)
    else if HasRoom(ch) then ch.(queue := ch.queue + [m])
    else ch
  }

  function SendAll(ch: Channel, ms: seq<string>): Channel
    decreases |ms|
  {
    if ms == [] then ch else SendAll(Send(ch, ms[0]), ms[1..])
  }

  function Close(ch: Channel): Channel {
    if ch.closed then ch.(panicked := true) else ch.(closed := true)
  }

  /** A broadcast of m at one client: a client without room is closed. */
  function Delivered(ch: Channel, m: string): Channel {
    if !ch.closed && !HasRoom(ch) then Close(ch) else Send(ch, m)
  }

  datatype State = State(clients: set<nat>, chans: map<nat, Channel>, pending: seq<string>, done: bool)

  const START := State({}, map[], [], false)

  datatype Event =
    | Register(c: nat, greeting: seq<string>)
    | Unregister(c: nat)
    | Update(ms: seq<string>)
    | Broadcast(m: string)
    | Take(c: nat)
    | Shutdown

  /** The non-blocking sends of a periodic update into the hub's own bounded channel. */
  function Offered(pending: seq<string>, ms: seq<string>): seq<string>
    decreases |ms|
  {
    if ms == [] then pending
    else Offered(if |pending| < BROADCAST_SIZE then pending + [ms[0]] else pending, ms[1..])
  }

  predicate Enabled(s: State, e: Event) {
    match e
    case Register(c, greeting) => !s.done && c !in s.chans && |greeting| <= 4
    case Unregister(c) => !s.done && c in s.chans
    case Update(_) => !s.done
    case Broadcast(m) => !s.done && s.pending != [] && m == s.pending[0]
    case Take(c) => c in s.chans && s.chans[c].queue != []
    case Shutdown => !s.done
  }

  function Next(s: State, e: Event): State
    requires Enabled(s, e)
  {
    match e
    case Register(c, greeting) =>
      s.(clients := s.clients + {c}, chans := s.chans[c := SendAll(OPEN, greeting)])
    case Unregister(c) =>
      if c in s.clients then s.(clients := s.clients - {c}, chans := s.chans[c := Close(s.chans[c])]) else s
    case Update(ms) => s.(pending := Offered(s.pending, ms))
    case Broadcast(m) =>
      s.(pending := s.pending[1..],
         clients := (set c | c in s.clients && (c in s.chans ==> HasRoom(s.chans[c]))),
         chans := map c | c in s.chans :: if c in s.clients then Delivered(s.chans[c], m) else s.chans[c])
    case Take(c) =>
      var ch := s.chans[c];
      s.(chans := s.chans[c := ch.(queue := ch.queue[1..], taken := ch.taken + [ch.queue[0]])])
    case Shutdown =>
      s.(clients := {}, done := true,
         chans := map c | c in s.chans :: if c in s.clients then Close(s.chans[c]) else s.chans[c])
  }

  predicate IsRun(history: seq<Event>)
    decreases |history|, 0
  {
    var n := |history|;
    n == 0 || (IsRun(history[..n - 1]) && Enabled(After(history[..n - 1]), history[n - 1]))
  }

  function After(history: seq<Event>): State
    requires IsRun(history)
    decreases |history|, 1
  {
    var n := |history|;
    if n == 0 then START else Next(After(history[..n - 1]), history[n - 1])
  }

  /** What client c is owed: its greeting and then every broadcast since it registered. */
  function Due(c: nat, history: seq<Event>): seq<string> {
    var n := |history|;
    if n == 0 then []
    else match history[n - 1]
      case Register(d, greeting) => if d == c then greeting else Due(c, history[..n - 1])
      case Broadcast(m) => Due(c, history[..n - 1]) + [m]
      case _ => Due(c, history[..n - 1])
  }

  // ---------------------------------------------------------------- what every run keeps

  /** A registered client was queued all it is owed; any other a prefix of it. */
  ghost predicate Sound(ch: Channel, registered: bool, due: seq<string>) {
    !ch.panicked && |ch.queue| <= SEND_SIZE && (ch.closed <==> !registered) &&
    Queued(ch) <= due && (registered ==> Queued(ch) == due)
  }

  ghost predicate Inv(s: State, history: seq<Event>) {
    s.clients <= s.chans.Keys && (s.done ==> s.clients == {}) && |s.pending| <= BROADCAST_SIZE &&
    forall c | c in s.chans :: Sound(s.chans[c], c in s.clients, Due(c, history))
  }

  lemma {:induction false} SendAllQueues(ch: Channel, ms: seq<string>)
    requires !ch.closed && !ch.panicked && |ch.queue| + |ms| <= SEND_SIZE
    ensures SendAll(ch, ms) == ch.(queue := ch.queue + ms)
    decreases |ms|
  {
    if ms != [] {
      SendAllQueues(Send(ch, ms[0]), ms[1..]);
      assert ch.queue + [ms[0]] + ms[1..] == ch.queue + ms;
    }
  }

  lemma {:induction false} OfferedIsBounded(pending: seq<string>, ms: seq<string>)
    requires |pending| <= BROADCAST_SIZE
    ensures var room := 64 - |pending|;
            Offered(pending, ms) == pending + ms[..if |ms| < room then |ms| else room]
    decreases |ms|
  {
    if ms != [] {
      if |pending| < BROADCAST_SIZE {
        OfferedIsBounded(pending + [ms[0]], ms[1..]);
        var taken := if |ms| < 64 - |pending| then |ms| else 64 - |pending|;
        assert ms[..taken] == [ms[0]] + ms[1..][..taken - 1];
      } else {
        OfferedIsBounded(pending, ms[1..]);
      }
    }
  }

  lemma DeliveryIsSound(ch: Channel, registered: bool, due: seq<string>, m: string)
    requires Sound(ch, registered, due)
    ensures if registered then Sound(Delivered(ch, m), HasRoom(ch), due + [m]) else Sound(ch, false, due + [m])
  {
    if registered && HasRoom(ch) { assert Queued(Delivered(ch, m)) == due + [m]; }
  }

  lemma TakeIsSound(ch: Channel, registered: bool, due: seq<string>)
    requires Sound(ch, registered, due) && ch.queue != []
    ensures Sound(ch.(queue := ch.queue[1..], taken := ch.taken + [ch.queue[0]]), registered, due)
  {
    assert ch.taken + [ch.queue[0]] + ch.queue[1..] == ch.taken + ch.queue;
  }

  lemma CloseIsSound(ch: Channel, due: seq<string>)
    requires Sound(ch, true, due)
    ensures Sound(Close(ch), false, due)
  {
  }

  lemma NextKeepsInv(s: State, e: Event, history: seq<Event>)
    requires Inv(s, history) && Enabled(s, e)
    ensures Inv(Next(s, e), history + [e])
  {
    var s' := Next(s, e);
    assert (history + [e])[..|history|] == history;
    match e
    case Register(c, greeting) =>
      SendAllQueues(OPEN, greeting);
      assert Queued(SendAll(OPEN, greeting)) == greeting;
    case Unregister(c) =>
    case Update(ms) => OfferedIsBounded(s.pending, ms);
    case Broadcast(m) =>
      forall c | c in s.chans ensures Sound(s'.chans[c], c in s'.clients, Due(c, history + [e])) {
        DeliveryIsSound(s.chans[c], c in s.clients, Due(c, history), m);
      }
    case Take(c) => TakeIsSound(s.chans[c], c in s.clients, Due(c, history));
    case Shutdown =>
      forall c | c in s.clients ensures Sound(s'.chans[c], c in s'.clients, Due(c, history + [e])) {
        CloseIsSound(s.chans[c], Due(c, history));
      }
  }

  lemma {:induction false} RunsKeepInv(history: seq<Event>)
    requires IsRun(history)
    ensures Inv(After(history), history)
  {
    var n := |history|;
    if n > 0 {
      RunsKeepInv(history[..n - 1]);
      NextKeepsInv(After(history[..n - 1]), history[n - 1], history[..n - 1]);
      assert history[..n - 1] + [history[n - 1]] == history;
    }
  }

  /** Every client still registered has been queued its greeting and then every broadcast since, in order and
      without a gap; every other client an uninterrupted prefix of that; no channel is closed twice or written
      after closing. */
  lemma RegisteredClientsMissNothing(history: seq<Event>, c: nat)
    requires IsRun(history) && c in After(history).chans
    ensures var ch := After(history).chans[c];
            !ch.panicked &&
            (c in After(history).clients ==> !ch.closed && ch.taken + ch.queue == Due(c, history)) &&
            (c !in After(history).clients ==> ch.closed && ch.taken + ch.queue <= Due(c, history))
  {
    RunsKeepInv(history);
  }

  /** A send to a closed channel panics, and so does a second close. */
  lemma TouchingClosedPanics(ch: Channel, m: string)
    ensures Send(ch, m).panicked <==> ch.panicked || ch.closed
    ensures Close(ch).panicked <==> ch.panicked || ch.closed
    ensures Delivered(ch, m).panicked <==> ch.panicked || ch.closed
  {
  }

  /** What was broadcast, and what the periodic updates found room for in the hub's channel. */
  function Broadcasts(history: seq<Event>): seq<string> {
    var n := |history|;
    if n == 0 then []
    else Broadcasts(history[..n - 1]) + if history[n - 1].Broadcast? then [history[n - 1].m] else []
  }

  function Accepted(history: seq<Event>): seq<string>
    requires IsRun(history)
  {
    var n := |history|;
    if n == 0 then []
    else
      var before := Accepted(history[..n - 1]);
      match history[n - 1]
      case Update(ms) =>
        var room := 64 - |After(history[..n - 1]).pending|;
        before + if |ms| <= room then ms else if room > 0 then ms[..room] else []
      case _ => before
  }

  lemma UpdateIsAccepted(accepted: seq<string>, sent: seq<string>, pending: seq<string>, ms: seq<string>)
    requires accepted == sent + pending && |pending| <= BROADCAST_SIZE
    ensures var room := 64 - |pending|;
            accepted + (if |ms| <= room then ms else if room > 0 then ms[..room] else []) == sent + Offered(pending, ms)
  {
    OfferedIsBounded(pending, ms);
  }

  lemma FirstIsSent(sent: seq<string>, pending: seq<string>)
    requires pending != []
    ensures sent + pending == (sent + [pending[0]]) + pending[1..]
  {
  }

  lemma PendingAfter(s: State, e: Event)
    requires Enabled(s, e)
    ensures Next(s, e).pending ==
            if e.Update? then Offered(s.pending, e.ms) else if e.Broadcast? then s.pending[1..] else s.pending
  {
  }

  /** Every message that found room is broadcast once, in order, or still waits. */
  lemma {:induction false} AcceptedAreBroadcast(history: seq<Event>)
    requires IsRun(history)
    ensures Accepted(history) == Broadcasts(history) + After(history).pending
  {
    var n := |history|;
    if n > 0 {
      var front, e := history[..n - 1], history[n - 1];
      var s := After(front);
      AcceptedAreBroadcast(front);
      RunsKeepInv(front);
      PendingAfter(s, e);
      match e {
        case Update(ms) => UpdateIsAccepted(Accepted(front), Broadcasts(front), s.pending, ms);
        case Broadcast(_) => FirstIsSent(Broadcasts(front), s.pending);
        case _ =>
      }
    }
  }

  /** The write pump takes the oldest message, which makes room. */
  lemma PumpTakesOldest(s: State, c: nat)
    requires Enabled(s, Take(c)) && |s.chans[c].queue| <= 256
    ensures var ch, ch' := s.chans[c], Next(s, Take(c)).chans[c];
            ch'.taken == ch.taken + [ch.queue[0]] && ch'.queue == ch.queue[1..] && HasRoom(ch')
  {
  }

  /** The hub stops for good. */
  lemma {:induction false} DoneIffShutdown(history: seq<Event>)
    requires IsRun(history)
    ensures After(history).done <==> exists i :: 0 <= i < |history| && history[i].Shutdown?
  {
    var n := |history|;
    if n > 0 {
      DoneIffShutdown(history[..n - 1]);
      if After(history[..n - 1]).done {
        var i :| 0 <= i < n - 1 && history[..n - 1][i].Shutdown?;
        assert history[i].Shutdown?;
      }
    }
  }

  /** After a shutdown only the write pumps go on, and no client is left. */
  lemma ShutdownIsLast(history: seq<Event>, i: nat, j: nat)
    requires IsRun(history) && i < j < |history| && history[i].Shutdown?
    ensures history[j].Take? && After(history).clients == {}
  {
    RunsKeepInv(history);
    DoneIffShutdown(history);
    Prefix(history, j);
    DoneIffShutdown(history[..j]);
    assert history[..j][i].Shutdown?;
  }

  lemma {:induction false} Prefix(history: seq<Event>, j: nat)
    requires IsRun(history) && j < |history|
    ensures IsRun(history[..j]) && Enabled(After(history[..j]), history[j])
  {
    var n := |history|;
    if j < n - 1 {
      Prefix(history[..n - 1], j);
      assert history[..n - 1][..j] == history[..j];
    }
  }

  /** A client leaves the table exactly when it unregisters, the hub stops, or a broadcast finds its channel full. */
  lemma LeavesOnlyWhen(history: seq<Event>, e: Event, c: nat)
    requires IsRun(history) && Enabled(After(history), e) && c in After(history).clients
    ensures c !in Next(After(history), e).clients <==>
            e == Unregister(c) || e.Shutdown? ||
            (e.Broadcast? && c in After(history).chans && |After(history).chans[c].queue| == 256)
  {
    RunsKeepInv(history);
  }

  // ---------------------------------------------------------------- the event loop

  class Client {
    var queue: seq<string>
    var closed: bool
    ghost var taken: seq<string>

    ghost function View(): Channel
      reads this
    {
      Channel(queue, taken, closed, false)
    }

    constructor ()
      ensures View() == OPEN
    {
      queue, closed, taken := [], false, [];
    }

    method TrySend(m: string) returns (ok: bool)
      requires !closed
      modifies this
      ensures ok == HasRoom(old(View())) && View() == Send(old(View()), m)
      ensures ok <==> |old(queue)| < 256
      ensures queue == if ok then old(queue) + [m] else old(queue)
    {
      ok := |queue| < SEND_SIZE;
      if ok { queue := queue + [m]; }
    }

    method Shut()
      requires !closed
      modifies this
      ensures View() == Close(old(View()))
    {
      closed := true;
    }
  }

  class Loop {
    var clients: set<Client>
    var pending: seq<string>

    /** The clients in the table are open. */
    ghost predicate Valid()
      reads this, clients
    {
      forall c | c in clients :: !c.closed
    }

    constructor ()
      ensures Valid() && clients == {} && pending == []
    {
      clients, pending := {}, [];
    }

    method DoRegister(client: Client, greeting: seq<string>)
      requires Valid() && client.View() == OPEN
      modifies this, client
      ensures Valid() && clients == old(clients) + {client} && pending == old(pending)
      ensures client.View() == SendAll(OPEN, greeting)
    {
      clients := clients + {client};
      var i := 0;
      while i < |greeting|
        invariant i <= |greeting| && !client.closed && clients == old(clients) + {client} && pending == old(pending)
        invariant forall c | c in old(clients) :: !c.closed
        invariant SendAll(client.View(), greeting[i..]) == SendAll(OPEN, greeting)
      {
        var _ := client.TrySend(greeting[i]);
        i := i + 1;
      }
    }

    method DoUnregister(client: Client)
      requires Valid()
      modifies this, client
      ensures Valid() && clients == old(clients) - {client} && pending == old(pending)
      ensures client.View() == if client in old(clients) then Close(old(client.View())) else old(client.View())
    {
      if client in clients {
        clients := clients - {client};
        client.Shut();
      }
    }

    method DoUpdate(ms: seq<string>)
      modifies this`pending
      ensures pending == Offered(old(pending), ms)
    {
      var i := 0;
      while i < |ms|
        invariant i <= |ms| && Offered(pending, ms[i..]) == Offered(old(pending), ms)
      {
        if |pending| < BROADCAST_SIZE { pending := pending + [ms[i]]; }
        i := i + 1;
      }
    }

    /** The sends of a broadcast: the clients without room are collected, nobody is closed yet. */
    method SendToAll(m: string) returns (slow: set<Client>)
      requires Valid()
      modifies clients
      ensures slow == set c | c in clients && !old(HasRoom(c.View()))
      ensures forall c | c in clients :: c.View() == Send(old(c.View()), m) && !c.closed
    {
      var todo := clients;
      slow := {};
      while todo != {}
        invariant todo <= clients
        invariant slow == set c | c in clients - todo && !old(HasRoom(c.View()))
        invariant forall c | c in todo :: c.View() == old(c.View())
        invariant forall c | c in clients - todo :: c.View() == Send(old(c.View()), m)
        invariant forall c | c in clients :: !c.closed
        decreases |todo|
      {
        var c :| c in todo;
        var ok := c.TrySend(m);
        if !ok { slow := slow + {c}; }
        todo := todo - {c};
      }
    }

    /** The second half of a broadcast: every collected client is closed, once, and leaves. */
    method Evict(slow: set<Client>)
      requires Valid() && slow <= clients
      modifies this`clients, slow
      ensures Valid() && clients == old(clients) - slow
      ensures forall c | c in slow :: c.View() == Close(old(c.View()))
    {
      var todo := slow;
      while todo != {}
        invariant todo <= slow && clients == old(clients) - (slow - todo)
        invariant forall c | c in todo :: c.View() == old(c.View())
        invariant forall c | c in slow - todo :: c.View() == Close(old(c.View()))
        invariant forall c | c in clients :: !c.closed
        decreases |todo|
      {
        var c :| c in todo;
        todo := todo - {c};
        c.Shut();
        clients := clients - {c};
      }
    }

    method DoBroadcast() returns (m: string)
      requires Valid() && pending != []
      modifies this, clients
      ensures Valid() && m == old(pending[0]) && pending == old(pending[1..])
      ensures clients == set c | c in old(clients) && old(HasRoom(c.View()))
      ensures forall c | c in old(clients) :: c.View() == Delivered(old(c.View()), m)
    {
      m := pending[0];
      pending := pending[1..];
      var slow := SendToAll(m);
      Evict(slow);
    }

    method DoShutdown()
      requires Valid()
      modifies this, clients
      ensures clients == {} && pending == old(pending)
      ensures forall c | c in old(clients) :: c.View() == Close(old(c.View()))
    {
      Evict(clients);
    }
  }
}
