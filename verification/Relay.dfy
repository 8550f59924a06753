/** The relay's client table and bounded queues. A packet is routed in two steps, a lookup under the lock and a send
    outside it, so connections may come and go in between. */
module Relay {
  import opened Options
  import opened Words
  import Frames

  function ZeroKey(): (k: seq<u8>)
    ensures |k| == Frames.KEY_SIZE
  {
    seq(Frames.KEY_SIZE, i => 0)
  }

  type Key = k: seq<u8> | |k| == Frames.KEY_SIZE witness ZeroKey()
  const QUEUE_SIZE := 64

  /** Where a relayed frame came from: the n-th packet that a connection sent. */
  datatype Origin = Origin(conn: nat, n: nat)

  /** A queued frame; origin is the model's own mark. */
  datatype Item = Item(frame: Frames.Frame, origin: Option<Origin>)

  datatype Packet = Packet(dst: Key, data: seq<u8>)

  /** What a connection's read loop is doing: between frames, holding the queue it looked up for the packet it sent
      last, on its way out, or gone. */
  datatype Loop = Reading | Holding(target: nat) | Leaving | Gone

  datatype Conn = Conn(key: Key, queue: seq<Item>, taken: seq<Item>, closes: nat, sent: seq<Packet>, loop: Loop)

  datatype State = State(clients: map<Key, nat>, conns: map<nat, Conn>)

  const START := State(map[], map[])

  datatype Event =
    | Add(c: nat, key: Key)
    | Presence(c: nat, present: bool)
    | Lookup(c: nat, p: Packet)
    | Send(c: nat)
    | Ping(c: nat)
    | Take(c: nat)
    | Leave(c: nat)
    | Remove(c: nat)

  predicate Enabled(s: State, e: Event) {
    match e
    case Add(c, _) => c !in s.conns
    case Presence(c, _) => c in s.conns
    case Lookup(c, _) => c in s.conns && s.conns[c].loop == Reading
    case Send(c) => c in s.conns && s.conns[c].loop.Holding? && s.conns[c].loop.target in s.conns && s.conns[c].sent != []
    case Ping(c) => c in s.conns && s.conns[c].loop == Reading
    case Take(c) => c in s.conns && s.conns[c].queue != []
    case Leave(c) => c in s.conns && s.conns[c].loop == Reading
    case Remove(c) => c in s.conns && s.conns[c].loop == Leaving
  }

  function Enqueued(k: Conn, it: Item): Conn {
    if |k.queue| < QUEUE_SIZE then k.(queue := k.queue + [it]) else k
  }

  function Closed(k: Conn): Conn {
    k.(closes := k.closes + 1)
  }

  /** The table entry of a key closes, if there is one. */
  function CloseEntry(s: State, key: Key): map<nat, Conn> {
    if key in s.clients && s.clients[key] in s.conns
    then s.conns[s.clients[key] := Closed(s.conns[s.clients[key]])]
    else s.conns
  }

  function Announcement(key: Key, present: bool): Item {
    Item(Frames.Frame(if present then Frames.PEER_PRESENT else Frames.PEER_GONE, key), None)
  }

  /** The frame that carries the last packet of connection c. */
  function Relayed(c: nat, k: Conn): Item
    requires k.sent != []
  {
    var n := |k.sent| - 1;
    Item(Frames.Frame(Frames.RECV_PACKET, Frames.Addressed(k.key, k.sent[n].data)), Some(Origin(c, n)))
  }

  ghost predicate InTable(s: State, c: nat) {
    c in s.conns && s.conns[c].key in s.clients && s.clients[s.conns[c].key] == c
  }

  /** A send on a closed queue panics; the read loop that tried it ends. */
  ghost function Next(s: State, e: Event): State
    requires Enabled(s, e)
  {
    match e
    case Add(c, key) =>
      State(s.clients[key := c], CloseEntry(s, key)[c := Conn(key, [], [], 0, [], Reading)])
    case Presence(c, present) =>
      var key := s.conns[c].key;
      s.(conns := map d | d in s.conns ::
           if InTable(s, d) && s.conns[d].key != key then Enqueued(s.conns[d], Announcement(key, present)) else s.conns[d])
    case Lookup(c, p) =>
      var k := s.conns[c];
      s.(conns := s.conns[c := k.(sent := k.sent + [p],
                                  loop := if p.dst in s.clients then Holding(s.clients[p.dst]) else Reading)])
    case Send(c) =>
      var k := s.conns[c];
      var t := k.loop.target;
      var done := s.conns[c := k.(loop := if s.conns[t].closes > 0 then Leaving else Reading)];
      s.(conns := if s.conns[t].closes > 0 then done else done[t := Enqueued(done[t], Relayed(c, k))])
    case Ping(c) =>
      var k := s.conns[c];
      s.(conns := s.conns[c := if k.closes > 0 then k.(loop := Leaving)
                               else Enqueued(k, Item(Frames.Frame(Frames.PONG, []), None))])
    case Take(c) =>
      var k := s.conns[c];
      s.(conns := s.conns[c := k.(queue := k.queue[1..], taken := k.taken + [k.queue[0]])])
    case Leave(c) => s.(conns := s.conns[c := s.conns[c].(loop := Leaving)])
    case Remove(c) =>
      var key := s.conns[c].key;
      var conns := CloseEntry(s, key);
      State(s.clients - {key}, conns[c := conns[c].(loop := Gone)])
  }

  // ---------------------------------------------------------------- the table and the closes

  /** Every entry is an open connection of that key, a queue closes at most once, and is closed exactly when its
      connection is not in the table. */
  ghost predicate TableInv(s: State) {
    (forall key | key in s.clients :: s.clients[key] in s.conns && s.conns[s.clients[key]].key == key) &&
    (forall c | c in s.conns :: s.conns[c].closes <= 1 && (s.conns[c].closes == 0 <==> InTable(s, c)))
  }

  /** A held queue belongs to the destination of the packet in hand. */
  ghost predicate HoldInv(s: State) {
    forall c | c in s.conns && s.conns[c].loop.Holding? :: HoldsFor(s, s.conns[c])
  }

  ghost predicate HoldsFor(s: State, k: Conn)
    requires k.loop.Holding?
  {
    k.loop.target in s.conns && k.sent != [] && k.sent[|k.sent| - 1].dst == s.conns[k.loop.target].key
  }

  lemma NextKeepsTable(s: State, e: Event)
    requires TableInv(s) && Enabled(s, e)
    ensures TableInv(Next(s, e))
  {
    var s' := Next(s, e);
    match e {
      case Presence(_, _) => SameTable(s, s');
      case Lookup(_, _) => SameTable(s, s');
      case Send(_) => SameTable(s, s');
      case Ping(_) => SameTable(s, s');
      case Take(_) => SameTable(s, s');
      case Leave(_) => SameTable(s, s');
      case Add(c, key) => AddKeepsTable(s, c, key);
      case Remove(c) => RemoveKeepsTable(s, c);
    }
  }

  lemma SameTable(s: State, s': State)
    requires TableInv(s) && s'.clients == s.clients && s'.conns.Keys == s.conns.Keys
    requires forall c | c in s.conns :: s'.conns[c].key == s.conns[c].key && s'.conns[c].closes == s.conns[c].closes
    ensures TableInv(s')
  {
    forall c | c in s'.conns ensures InTable(s', c) == InTable(s, c) {}
  }

  lemma AddKeepsTable(s: State, c: nat, key: Key)
    requires TableInv(s) && c !in s.conns
    ensures TableInv(Next(s, Add(c, key)))
  {
    var s' := Next(s, Add(c, key));
    forall d | d in s'.conns ensures s'.conns[d].closes <= 1 && (s'.conns[d].closes == 0 <==> InTable(s', d)) {
      if d != c { assert InTable(s', d) <==> InTable(s, d) && s.conns[d].key != key; }
    }
  }

  lemma RemoveKeepsTable(s: State, c: nat)
    requires TableInv(s) && c in s.conns && s.conns[c].loop == Leaving
    ensures TableInv(Next(s, Remove(c)))
  {
    var s' := Next(s, Remove(c));
    var key := s.conns[c].key;
    forall d | d in s'.conns ensures s'.conns[d].closes <= 1 && (s'.conns[d].closes == 0 <==> InTable(s', d)) {
      assert InTable(s', d) <==> InTable(s, d) && s.conns[d].key != key;
    }
  }

  /** A read loop is at one thing at a time: it reads, or has a packet in hand, or is on its way out. */
  lemma OneThingAtATime(s: State, c: nat, p: Packet)
    requires HoldInv(s) && c in s.conns
    ensures Enabled(s, Lookup(c, p)) <==> s.conns[c].loop.Reading?
    ensures Enabled(s, Ping(c)) <==> s.conns[c].loop.Reading?
    ensures Enabled(s, Leave(c)) <==> s.conns[c].loop.Reading?
    ensures Enabled(s, Send(c)) <==> s.conns[c].loop.Holding?
    ensures Enabled(s, Remove(c)) <==> s.conns[c].loop.Leaving?
    ensures Enabled(s, Leave(c)) ==> Next(s, Leave(c)).conns[c].loop.Leaving?
    ensures Enabled(s, Remove(c)) ==> Next(s, Remove(c)).conns[c].loop.Gone?
    ensures Enabled(s, Ping(c)) ==>
              Next(s, Ping(c)).conns[c].loop == if s.conns[c].closes > 0 then Leaving else Reading
  {
    if s.conns[c].loop.Holding? { assert HoldsFor(s, s.conns[c]); }
  }

  /** A packet for a connection in the table, with nothing in between: it is the last frame of that connection's queue
      if there was room, and nobody else's queue changes. */
  lemma UndisturbedRouteDelivers(s: State, c: nat, p: Packet, d: nat)
    requires TableInv(s) && c in s.conns && s.conns[c].loop.Reading? && d in s.conns
    ensures Enabled(s, Lookup(c, p))
    ensures p.dst in s.clients ==>
              var held := Next(s, Lookup(c, p));
              Enabled(held, Send(c)) && d in Next(held, Send(c)).conns &&
              FramesOf(Next(held, Send(c)).conns[d].queue) ==
                FramesOf(s.conns[d].queue) +
                if d == s.clients[p.dst] && |s.conns[d].queue| < 64 then [Frames.Frame(3, s.conns[c].key + p.data)] else []
  {
    if p.dst in s.clients {
      var held := Next(s, Lookup(c, p));
      assert InTable(s, s.clients[p.dst]);
      QueuesGrowAsTold(held, Send(c), d);
    }
  }

  /** What each step of the relay leaves in a queue. A packet routed to an open queue with room is its last frame,
      stamped with the sender's key; everyone else in the table with room is told who came or went; a ping on an open
      connection with room is answered; nothing else is queued anywhere. */
  lemma QueuesGrowAsTold(s: State, e: Event, d: nat)
    requires Enabled(s, e) && d in s.conns && (e.Send? ==> s.conns[e.c].sent != [])
    ensures d in Next(s, e).conns
    ensures var k, room := s.conns[d], |s.conns[d].queue| < 64;
            var got :=
              match e
              case Send(c) =>
                var last := s.conns[c].sent[|s.conns[c].sent| - 1];
                if d == s.conns[c].loop.target && k.closes == 0 && room
                then [Frames.Frame(3, s.conns[c].key + last.data)] else []
              case Presence(c, present) =>
                if InTable(s, d) && k.key != s.conns[c].key && room
                then [Frames.Frame(if present then 4 else 5, s.conns[c].key)] else []
              case Ping(c) => if d == c && k.closes == 0 && room then [Frames.Frame(7, [])] else []
              case _ => [];
            FramesOf(Next(s, e).conns[d].queue) ==
              (if e == Take(d) then FramesOf(k.queue)[1..] else FramesOf(k.queue)) + got
  {
    match e
    case Add(c, key) => ClosingKeepsQueues(s, key, d);
    case Remove(c) => ClosingKeepsQueues(s, s.conns[c].key, d);
    case Presence(c, present) => EnqueuedFrames(s.conns[d], Announcement(s.conns[c].key, present));
    case Send(c) =>
      var done := if d == c then s.conns[c].(loop := Next(s, e).conns[c].loop) else s.conns[d];
      EnqueuedFrames(done, Relayed(c, s.conns[c]));
    case Ping(c) => EnqueuedFrames(s.conns[c], Item(Frames.Frame(Frames.PONG, []), None));
    case _ =>
  }

  function FramesOf(queue: seq<Item>): (fs: seq<Frames.Frame>)
    ensures |fs| == |queue|
  {
    seq(|queue|, i requires 0 <= i < |queue| => queue[i].frame)
  }

  lemma EnqueuedFrames(k: Conn, it: Item)
    ensures FramesOf(Enqueued(k, it).queue) == FramesOf(k.queue) + if |k.queue| < 64 then [it.frame] else []
  {
  }

  lemma ClosingKeepsQueues(s: State, key: Key, d: nat)
    requires d in s.conns
    ensures d in CloseEntry(s, key) && CloseEntry(s, key)[d].queue == s.conns[d].queue
  {
  }

  // ---------------------------------------------------------------- order and stamps

  /** How many packets of a connection are no longer in hand. */
  function Finished(k: Conn): nat {
    if k.loop.Holding? && k.sent != [] then |k.sent| - 1 else |k.sent|
  }

  /** A relayed frame carries a finished packet of its origin, addressed to this key, under the sender's key. */
  ghost predicate GoodItem(conns: map<nat, Conn>, it: Item, key: Key) {
    if it.origin.None? then it.frame.kind != Frames.RECV_PACKET
    else
      var o := it.origin.value;
      o.conn in conns && o.n < Finished(conns[o.conn]) && conns[o.conn].sent[o.n].dst == key &&
      it.frame == Frames.Frame(Frames.RECV_PACKET, Frames.Addressed(conns[o.conn].key, conns[o.conn].sent[o.n].data))
  }

  ghost predicate GoodLog(conns: map<nat, Conn>, log: seq<Item>, key: Key) {
    forall i | 0 <= i < |log| :: GoodItem(conns, log[i], key)
  }

  /** Frames of one origin come in the order in which it sent them, none twice. */
  ghost predicate Ordered(log: seq<Item>) {
    forall i, j | 0 <= i < j < |log| && log[i].origin.Some? && log[j].origin.Some? &&
      log[i].origin.value.conn == log[j].origin.value.conn :: log[i].origin.value.n < log[j].origin.value.n
  }

  ghost predicate LogInv(conns: map<nat, Conn>, k: Conn) {
    |k.queue| <= QUEUE_SIZE && GoodLog(conns, k.taken + k.queue, k.key) && Ordered(k.taken + k.queue)
  }

  ghost predicate AllLogs(conns: map<nat, Conn>) {
    forall c | c in conns :: LogInv(conns, conns[c])
  }

  /** Connections keep their keys, and what they have sent only grows. */
  ghost predicate Extends(conns: map<nat, Conn>, later: map<nat, Conn>) {
    forall c | c in conns :: c in later && later[c].key == conns[c].key && conns[c].sent <= later[c].sent &&
      Finished(conns[c]) <= Finished(later[c])
  }

  lemma GoodLogStays(conns: map<nat, Conn>, later: map<nat, Conn>, log: seq<Item>, key: Key)
    requires Extends(conns, later) && GoodLog(conns, log, key)
    ensures GoodLog(later, log, key)
  {
    forall i | 0 <= i < |log| ensures GoodItem(later, log[i], key) {
      assert GoodItem(conns, log[i], key);
    }
  }

  /** A frame of the relay's own. */
  predicate IsNotice(it: Item) {
    it.origin == None && it.frame.kind != Frames.RECV_PACKET
  }

  /** Logs that are as they were, or grew by an unmarked frame, stay good. */
  ghost predicate Plain(k: Conn, k': Conn) {
    k'.key == k.key && |k'.queue| <= QUEUE_SIZE &&
    (k'.taken + k'.queue == k.taken + k.queue ||
     exists it: Item :: IsNotice(it) && k'.taken + k'.queue == k.taken + k.queue + [it])
  }

  lemma PlainKeepsLog(conns: map<nat, Conn>, later: map<nat, Conn>, k: Conn, k': Conn)
    requires LogInv(conns, k) && Plain(k, k') && Extends(conns, later)
    ensures LogInv(later, k')
  {
    GoodLogStays(conns, later, k.taken + k.queue, k.key);
  }

  lemma PlainKeepsAll(conns: map<nat, Conn>, later: map<nat, Conn>)
    requires AllLogs(conns) && Extends(conns, later)
    requires forall c | c in later :: if c in conns then Plain(conns[c], later[c]) else later[c].taken + later[c].queue == []
    ensures AllLogs(later)
  {
    forall c | c in later ensures LogInv(later, later[c]) {
      if c in conns { PlainKeepsLog(conns, later, conns[c], later[c]); }
    }
  }

  lemma EnqueuedIsPlain(k: Conn, it: Item)
    requires |k.queue| <= QUEUE_SIZE && IsNotice(it)
    ensures Plain(k, Enqueued(k, it))
  {
    if |k.queue| < QUEUE_SIZE { assert k.taken + (k.queue + [it]) == k.taken + k.queue + [it]; }
  }

  lemma TakeIsPlain(k: Conn)
    requires |k.queue| <= QUEUE_SIZE && k.queue != []
    ensures Plain(k, k.(queue := k.queue[1..], taken := k.taken + [k.queue[0]]))
  {
    assert k.taken + [k.queue[0]] + k.queue[1..] == k.taken + k.queue;
  }

  /** Queueing the packet in hand keeps the receiver's log good: all earlier packets of its origin came before. */
  lemma RelayKeepsLog(conns: map<nat, Conn>, later: map<nat, Conn>, c: nat, k: Conn)
    requires LogInv(conns, k) && Extends(conns, later)
    requires c in conns && c in later && conns[c].sent != [] && later[c].sent == conns[c].sent
    requires Finished(conns[c]) == |conns[c].sent| - 1 && Finished(later[c]) == |conns[c].sent|
    requires conns[c].sent[|conns[c].sent| - 1].dst == k.key
    ensures LogInv(later, Enqueued(k, Relayed(c, conns[c])))
  {
    GoodLogStays(conns, later, k.taken + k.queue, k.key);
    var it := Relayed(c, conns[c]);
    var log := k.taken + k.queue;
    if |k.queue| < QUEUE_SIZE {
      assert k.taken + (k.queue + [it]) == log + [it];
      assert GoodItem(later, it, k.key);
      forall i | 0 <= i < |log| && log[i].origin.Some? && log[i].origin.value.conn == c
        ensures log[i].origin.value.n < it.origin.value.n
      {
        assert GoodItem(conns, log[i], k.key);
      }
    }
  }

  ghost predicate Inv(s: State) {
    TableInv(s) && HoldInv(s) && AllLogs(s.conns)
  }

  lemma SendExtends(s: State, c: nat)
    requires Enabled(s, Send(c)) && HoldsFor(s, s.conns[c])
    ensures Extends(s.conns, Next(s, Send(c)).conns)
    ensures var k, later := s.conns[c], Next(s, Send(c)).conns;
            later[c].sent == k.sent && Finished(k) == |k.sent| - 1 && Finished(later[c]) == |k.sent|
  {
  }

  lemma SendKeepsLogs(s: State, c: nat)
    requires HoldInv(s) && AllLogs(s.conns) && Enabled(s, Send(c))
    ensures AllLogs(Next(s, Send(c)).conns)
  {
    assert HoldsFor(s, s.conns[c]);
    SendExtends(s, c);
    var later := Next(s, Send(c)).conns;
    forall d | d in later ensures LogInv(later, later[d]) { SendKeepsLog(s, c, d); }
  }

  lemma SendKeepsLog(s: State, c: nat, d: nat)
    requires Enabled(s, Send(c)) && HoldsFor(s, s.conns[c]) && d in s.conns
    requires Extends(s.conns, Next(s, Send(c)).conns)
    requires LogInv(s.conns, s.conns[d])
    ensures LogInv(Next(s, Send(c)).conns, Next(s, Send(c)).conns[d])
  {
    var k, later := s.conns[c], Next(s, Send(c)).conns;
    SendExtends(s, c);
    if d == k.loop.target && s.conns[d].closes == 0 {
      var before := if d == c then k.(loop := Reading) else s.conns[d];
      LoopIsNotLogged(s.conns, s.conns[d], before);
      RelayKeepsLog(s.conns, later, c, before);
    } else {
      PlainKeepsLog(s.conns, later, s.conns[d], later[d]);
    }
  }

  lemma LoopIsNotLogged(conns: map<nat, Conn>, k: Conn, k': Conn)
    requires LogInv(conns, k) && k' == k.(loop := k'.loop)
    ensures LogInv(conns, k')
  {
  }

  lemma PresenceExtends(s: State, c: nat, present: bool)
    requires c in s.conns
    ensures Extends(s.conns, Next(s, Presence(c, present)).conns)
  {
  }

  lemma PresenceIsPlain(s: State, c: nat, present: bool, d: nat)
    requires c in s.conns && d in s.conns && |s.conns[d].queue| <= QUEUE_SIZE
    ensures Plain(s.conns[d], Next(s, Presence(c, present)).conns[d])
  {
    EnqueuedIsPlain(s.conns[d], Announcement(s.conns[c].key, present));
  }

  lemma PresenceKeepsLogs(s: State, c: nat, present: bool)
    requires AllLogs(s.conns) && c in s.conns
    ensures AllLogs(Next(s, Presence(c, present)).conns)
  {
    var later := Next(s, Presence(c, present)).conns;
    PresenceExtends(s, c, present);
    forall d | d in later ensures LogInv(later, later[d]) {
      assert LogInv(s.conns, s.conns[d]);
      PresenceIsPlain(s, c, present, d);
      PlainKeepsLog(s.conns, later, s.conns[d], later[d]);
    }
  }

  /** A step that changes one connection, and its log only by a notice. */
  lemma OneStepKeepsLogs(conns: map<nat, Conn>, c: nat, k: Conn)
    requires AllLogs(conns) && c in conns && Plain(conns[c], k) && conns[c].sent <= k.sent
    requires Finished(conns[c]) <= Finished(k)
    ensures AllLogs(conns[c := k])
  {
    var later := conns[c := k];
    forall d | d in conns && d != c ensures Plain(conns[d], later[d]) { assert LogInv(conns, conns[d]); }
    PlainKeepsAll(conns, later);
  }

  lemma CloseKeepsLogs(s: State, key: Key)
    requires AllLogs(s.conns)
    ensures AllLogs(CloseEntry(s, key)) && CloseEntry(s, key).Keys == s.conns.Keys
  {
    if key in s.clients && s.clients[key] in s.conns {
      var c := s.clients[key];
      assert LogInv(s.conns, s.conns[c]);
      OneStepKeepsLogs(s.conns, c, Closed(s.conns[c]));
    }
  }

  lemma AddKeepsLogs(conns: map<nat, Conn>, c: nat, key: Key)
    requires AllLogs(conns) && c !in conns
    ensures AllLogs(conns[c := Conn(key, [], [], 0, [], Reading)])
  {
    var later := conns[c := Conn(key, [], [], 0, [], Reading)];
    forall d | d in conns ensures Plain(conns[d], later[d]) { assert LogInv(conns, conns[d]); }
    PlainKeepsAll(conns, later);
  }

  lemma NextKeepsLogs(s: State, e: Event)
    requires HoldInv(s) && AllLogs(s.conns) && Enabled(s, e)
    ensures AllLogs(Next(s, e).conns)
  {
    match e {
      case Send(c) => SendKeepsLogs(s, c);
      case Presence(c, present) => PresenceKeepsLogs(s, c, present);
      case Add(c, key) =>
        CloseKeepsLogs(s, key);
        AddKeepsLogs(CloseEntry(s, key), c, key);
      case Remove(c) =>
        var conns := CloseEntry(s, s.conns[c].key);
        CloseKeepsLogs(s, s.conns[c].key);
        assert LogInv(conns, conns[c]);
        OneStepKeepsLogs(conns, c, conns[c].(loop := Gone));
      case Ping(c) =>
        assert LogInv(s.conns, s.conns[c]);
        EnqueuedIsPlain(s.conns[c], Item(Frames.Frame(Frames.PONG, []), None));
        OneStepKeepsLogs(s.conns, c, Next(s, e).conns[c]);
      case Take(c) =>
        assert LogInv(s.conns, s.conns[c]);
        TakeIsPlain(s.conns[c]);
        OneStepKeepsLogs(s.conns, c, Next(s, e).conns[c]);
      case Lookup(c, p) =>
        assert LogInv(s.conns, s.conns[c]);
        OneStepKeepsLogs(s.conns, c, Next(s, e).conns[c]);
      case Leave(c) =>
        assert LogInv(s.conns, s.conns[c]);
        OneStepKeepsLogs(s.conns, c, Next(s, e).conns[c]);
    }
  }

  lemma NextKeepsHolds(s: State, e: Event)
    requires TableInv(s) && HoldInv(s) && Enabled(s, e)
    ensures HoldInv(Next(s, e))
  {
    var s' := Next(s, e);
    forall c | c in s'.conns && s'.conns[c].loop.Holding? ensures HoldsFor(s', s'.conns[c]) {
      if c in s.conns && s.conns[c].loop.Holding? { assert HoldsFor(s, s.conns[c]); }
    }
  }

  // ---------------------------------------------------------------- runs

  ghost predicate Reaches(s: State, events: seq<Event>, end: State)
    decreases |events|
  {
    if events == [] then s == end else Enabled(s, events[0]) && Reaches(Next(s, events[0]), events[1..], end)
  }

  lemma {:induction false} RunKeepsInv(s: State, events: seq<Event>, end: State)
    requires Inv(s) && Reaches(s, events, end)
    ensures Inv(end)
    decreases |events|
  {
    if events != [] {
      NextKeepsTable(s, events[0]);
      NextKeepsHolds(s, events[0]);
      NextKeepsLogs(s, events[0]);
      RunKeepsInv(Next(s, events[0]), events[1..], end);
    }
  }

  /** In every run a connection in the table has an open queue, and no queue is closed twice. */
  lemma TableQueuesAreOpen(events: seq<Event>, s: State)
    requires Reaches(START, events, s)
    ensures forall key | key in s.clients :: s.clients[key] in s.conns && s.conns[s.clients[key]].closes == 0 &&
              s.conns[s.clients[key]].key == key
    ensures forall c | c in s.conns :: s.conns[c].closes <= 1
  {
    RunKeepsInv(START, events, s);
    forall key | key in s.clients ensures s.conns[s.clients[key]].closes == 0 {
      assert InTable(s, s.clients[key]);
    }
  }

  /** A routed packet meets a closed queue exactly when its target has left the table since the lookup. */
  lemma SendMeetsClosedIff(events: seq<Event>, s: State, c: nat)
    requires Reaches(START, events, s) && c in s.conns && s.conns[c].loop.Holding?
    ensures Enabled(s, Send(c))
    ensures Next(s, Send(c)).conns[c].loop == Leaving <==> !InTable(s, s.conns[c].loop.target)
  {
    RunKeepsInv(START, events, s);
    assert HoldsFor(s, s.conns[c]);
  }

  /** The packets that connection c got through to connection t, in the order t got them. */
  function Delivered(log: seq<Item>, c: nat): seq<nat> {
    if log == [] then []
    else
      var it := log[|log| - 1];
      Delivered(log[..|log| - 1], c) + if it.origin.Some? && it.origin.value.conn == c then [it.origin.value.n] else []
  }

  /** The frames of one sending connection reach one receiving connection as an in-order subsequence of what it
      sent there, each stamped with the sender's key. */
  lemma FramesArriveInOrder(events: seq<Event>, s: State, c: nat, t: nat)
    requires Reaches(START, events, s) && c in s.conns && t in s.conns
    ensures var log := s.conns[t].taken + s.conns[t].queue;
            var ns := Delivered(log, c);
            Rising(ns) && (forall n :: n in ns <==> exists i :: 0 <= i < |log| && log[i].origin == Some(Origin(c, n))) &&
            forall n | n in ns :: n < |s.conns[c].sent| && s.conns[c].sent[n].dst == s.conns[t].key
    ensures forall it | it in s.conns[t].taken + s.conns[t].queue && it.frame.kind == Frames.RECV_PACKET ::
              it.origin.Some? && it.origin.value.conn in s.conns &&
              var from := s.conns[it.origin.value.conn];
              it.origin.value.n < |from.sent| &&
              Frames.ParsePacket(it.frame.payload) == Frames.Parsed(from.key, from.sent[it.origin.value.n].data)
  {
    RunKeepsInv(START, events, s);
    var log := s.conns[t].taken + s.conns[t].queue;
    assert LogInv(s.conns, s.conns[t]);
    DeliveredRise(log, c);
    DeliveredAreLogged(log, c);
    forall n ensures n in Delivered(log, c) <==> exists i :: 0 <= i < |log| && log[i].origin == Some(Origin(c, n)) {
      assert Logged(log, c, n) <==> exists i :: 0 <= i < |log| && log[i].origin == Some(Origin(c, n));
    }
    forall n | n in Delivered(log, c) ensures n < |s.conns[c].sent| && s.conns[c].sent[n].dst == s.conns[t].key {
      DeliveredWereSent(s.conns, log, s.conns[t].key, c, n);
    }
    forall i | 0 <= i < |log| && log[i].frame.kind == Frames.RECV_PACKET
      ensures log[i].origin.Some? && log[i].origin.value.conn in s.conns
      ensures log[i].origin.value.n < |s.conns[log[i].origin.value.conn].sent|
      ensures Frames.ParsePacket(log[i].frame.payload) ==
              Frames.Parsed(s.conns[log[i].origin.value.conn].key,
                            s.conns[log[i].origin.value.conn].sent[log[i].origin.value.n].data)
    {
      assert GoodItem(s.conns, log[i], s.conns[t].key);
      var from := s.conns[log[i].origin.value.conn];
      Frames.PacketRoundTrip(from.key, from.sent[log[i].origin.value.n].data);
    }
  }

  ghost predicate Logged(log: seq<Item>, c: nat, n: nat) {
    exists i :: 0 <= i < |log| && log[i].origin == Some(Origin(c, n))
  }

  lemma {:induction false} DeliveredAreLogged(log: seq<Item>, c: nat)
    ensures forall n :: n in Delivered(log, c) <==> Logged(log, c, n)
  {
    if log != [] {
      var m := |log| - 1;
      DeliveredAreLogged(log[..m], c);
      forall n | Logged(log, c, n) ensures n in Delivered(log, c) {
        var i :| 0 <= i < |log| && log[i].origin == Some(Origin(c, n));
        if i < m {
          assert log[..m][i].origin == Some(Origin(c, n));
          assert Logged(log[..m], c, n);
        }
      }
      forall n | n in Delivered(log, c) ensures Logged(log, c, n) {
        if n in Delivered(log[..m], c) {
          var i :| 0 <= i < m && log[..m][i].origin == Some(Origin(c, n));
          assert log[i].origin == Some(Origin(c, n));
        } else {
          assert log[m].origin == Some(Origin(c, n));
        }
      }
    }
  }

  ghost predicate Rising(ns: seq<nat>) {
    forall i, j | 0 <= i < j < |ns| :: ns[i] < ns[j]
  }

  lemma {:induction false} DeliveredRise(log: seq<Item>, c: nat)
    requires Ordered(log)
    ensures Rising(Delivered(log, c))
  {
    if log != [] {
      var m := |log| - 1;
      var ns := Delivered(log[..m], c);
      DeliveredRise(log[..m], c);
      DeliveredAreLogged(log[..m], c);
      if log[m].origin.Some? && log[m].origin.value.conn == c {
        forall i | 0 <= i < |ns| ensures ns[i] < log[m].origin.value.n {
          assert Logged(log[..m], c, ns[i]);
          var l :| 0 <= l < m && log[..m][l].origin == Some(Origin(c, ns[i]));
          assert log[l].origin == Some(Origin(c, ns[i]));
        }
      }
    }
  }

  lemma DeliveredWereSent(conns: map<nat, Conn>, log: seq<Item>, key: Key, c: nat, n: nat)
    requires c in conns && GoodLog(conns, log, key) && n in Delivered(log, c)
    ensures n < |conns[c].sent| && conns[c].sent[n].dst == key
  {
    DeliveredAreLogged(log, c);
    assert Logged(log, c, n);
    var i :| 0 <= i < |log| && log[i].origin == Some(Origin(c, n));
    assert GoodItem(conns, log[i], key);
  }

  /** A departing connection evicts another one exactly when it was itself replaced: removal goes by key. */
  lemma RemovalEvictsAnotherIff(events: seq<Event>, s: State, c: nat)
    requires Reaches(START, events, s) && Enabled(s, Remove(c))
    ensures (exists d :: d != c && InTable(s, d) && !InTable(Next(s, Remove(c)), d)) <==>
            s.conns[c].key in s.clients && !InTable(s, c)
  {
    RunKeepsInv(START, events, s);
    var key := s.conns[c].key;
    if key in s.clients && !InTable(s, c) {
      var d := s.clients[key];
      assert d != c && InTable(s, d) && !InTable(Next(s, Remove(c)), d);
    }
    forall d | d != c && InTable(s, d) && s.conns[d].key != key ensures InTable(Next(s, Remove(c)), d) {}
  }
}
