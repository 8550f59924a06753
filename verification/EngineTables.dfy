/** The three tables of a node engine, and every lock-held region that changes them. */
module EngineTables {
  import opened Words
  import opened Crypto

  /** Seconds before a pending handshake is dropped. */
  const HANDSHAKE_TIMEOUT := 5

  datatype PeerSession<S> = PeerSession(session: S, receiverID: u32, localID: u32)
  datatype Pending<H> = Pending(peer: Term, hs: H, localID: u32, sentAt: int)

  /** drafts are the ids that some handler has drawn, or taken out of pending, and not yet put in a table. */
  datatype Tables<S, H> = Tables(
    idCounter: u32,
    sessions: map<Term, PeerSession<S>>,
    byID: map<u32, PeerSession<S>>,
    pending: map<u32, Pending<H>>,
    drafts: set<u32>)

  function NoTables<S, H>(): Tables<S, H> {
    Tables(0, map[], map[], map[], {})
  }

  datatype Event<S, H> =
    | DrawID
    | InsertPending(p: Pending<H>)
    | TakePending(id: u32)
    | BuildSession(peer: Term, ps: PeerSession<S>)
    | Abandon(id: u32)
    | Rekey(peer: Term)
    | Expire(now: int)

  /** A handler inserts only under an id it holds; fewer than 2^32 ids are ever drawn. */
  predicate Enabled<S, H>(t: Tables<S, H>, e: Event<S, H>) {
    match e
    case DrawID => t.idCounter + 1 < TWO32
    case InsertPending(p) => p.localID in t.drafts
    case BuildSession(_, ps) => ps.localID in t.drafts
    case Abandon(id) => id in t.drafts
    case _ => true
  }

  function Step<S, H>(t: Tables<S, H>, e: Event<S, H>): Tables<S, H>
    requires Enabled(t, e)
  {
    match e
    case DrawID => t.(idCounter := t.idCounter + 1, drafts := t.drafts + {t.idCounter + 1})
    case InsertPending(p) => t.(pending := t.pending[p.localID := p], drafts := t.drafts - {p.localID})
    case TakePending(id) =>
      if id in t.pending then t.(pending := t.pending - {id}, drafts := t.drafts + {id}) else t
    case BuildSession(peer, ps) =>
      t.(sessions := t.sessions[peer := ps], byID := t.byID[ps.localID := ps], drafts := t.drafts - {ps.localID})
    case Abandon(id) => t.(drafts := t.drafts - {id})
    case Rekey(peer) =>
      if peer in t.sessions
      then t.(byID := t.byID - {t.sessions[peer].localID}, sessions := t.sessions - {peer})
      else t
    case Expire(now) => t.(pending := Unexpired(t.pending, now))
  }

  function Unexpired<H>(pending: map<u32, Pending<H>>, now: int): map<u32, Pending<H>> {
    map id | id in pending && now - pending[id].sentAt <= HANDSHAKE_TIMEOUT :: pending[id]
  }

  /** Every id is in at most one place, under its own key, and was drawn; every peer's session is in byID. */
  ghost predicate Inv<S, H>(t: Tables<S, H>) {
    && (forall id | id in t.byID :: t.byID[id].localID == id && 0 < id <= t.idCounter)
    && (forall id | id in t.pending :: t.pending[id].localID == id && 0 < id <= t.idCounter)
    && (forall id | id in t.drafts :: 0 < id <= t.idCounter)
    && t.byID.Keys !! t.pending.Keys !! t.drafts
    && (forall k | k in t.sessions ::
          t.sessions[k].localID in t.byID && t.byID[t.sessions[k].localID] == t.sessions[k])
    && (forall k, l | k in t.sessions && l in t.sessions ::
          t.sessions[k].localID == t.sessions[l].localID ==> k == l)
  }

  lemma StepKeepsInv<S, H>(t: Tables<S, H>, e: Event<S, H>)
    requires Inv(t) && Enabled(t, e)
    ensures Inv(Step(t, e))
  {
  }

  ghost predicate IsRun<S(!new), H(!new)>(t: Tables<S, H>, events: seq<Event<S, H>>, t': Tables<S, H>)
    decreases |events|
  {
    if events == [] then t == t'
    else Enabled(t, events[0]) && IsRun(Step(t, events[0]), events[1..], t')
  }

  /** In every state any interleaving of the handlers reaches, the tables are consistent. */
  lemma {:induction false} TablesAlwaysConsistent<S(!new), H(!new)>(
      t: Tables<S, H>, events: seq<Event<S, H>>, t': Tables<S, H>)
    requires Inv(t) && IsRun(t, events, t')
    ensures Inv(t') && t.idCounter <= t'.idCounter
    decreases |events|
  {
    if events != [] {
      StepKeepsInv(t, events[0]);
      TablesAlwaysConsistent(Step(t, events[0]), events[1..], t');
    }
  }

  /** Until it is rekeyed an established session keeps its id: no event replaces or moves it. */
  lemma OnlyRekeyRemovesASession<S, H>(t: Tables<S, H>, e: Event<S, H>, id: u32)
    requires Inv(t) && Enabled(t, e) && id in t.byID
    ensures id in Step(t, e).byID ==> Step(t, e).byID[id] == t.byID[id]
    ensures id !in Step(t, e).byID <==>
            e.Rekey? && e.peer in t.sessions && t.sessions[e.peer].localID == id
  {
  }

  /** An id out of every table never comes back: ids are drawn once. */
  lemma RetiredIdsStayRetired<S, H>(t: Tables<S, H>, e: Event<S, H>, id: u32)
    requires Inv(t) && Enabled(t, e)
    requires id <= t.idCounter && id !in t.byID && id !in t.pending && id !in t.drafts
    ensures var t' := Step(t, e);
            id !in t'.byID && id !in t'.pending && id !in t'.drafts
  {
  }
}
