/** Registrations side by side: looking up the single-use key, finding the node, allocating, storing and marking the key
    are separately locked regions. */
module Registrations {
  import Sequences

  /** How far a handler has come: it found its key unused, found its public key unknown, holds an address, or has
      stored its node and is about to mark the key. */
  datatype Phase = Keyed | Unknown | Allocated | Stored

  datatype Handler = Handler(authKey: string, publicKey: string, phase: Phase)

  /** The keys marked as used, the public keys of the nodes, the auth keys of all nodes ever stored, and the handlers
      under way. */
  datatype Sys = Sys(
    used: set<string>,
    nodes: multiset<string>,
    admitted: multiset<string>,
    handlers: map<nat, Handler>)

  const NOBODY := Sys({}, multiset{}, multiset{}, map[])

  datatype Event =
    | Begin(r: nat, authKey: string, publicKey: string)
    | FindNode(r: nat)
    | Allocate(r: nat, ok: bool)
    | Store(r: nat, saved: bool)
    | Mark(r: nat)
    | Delete(publicKey: string)

  predicate InPhase(s: Sys, r: nat, p: Phase) {
    r in s.handlers && s.handlers[r].phase == p
  }

  predicate Enabled(s: Sys, e: Event) {
    match e
    case Begin(r, _, _) => r !in s.handlers
    case FindNode(r) => InPhase(s, r, Keyed)
    case Allocate(r, _) => InPhase(s, r, Unknown)
    case Store(r, _) => InPhase(s, r, Allocated)
    case Mark(r) => InPhase(s, r, Stored)
    case Delete(p) => p in s.nodes
  }

  function Moved(s: Sys, r: nat, p: Phase): Sys
    requires r in s.handlers
  {
    s.(handlers := s.handlers[r := s.handlers[r].(phase := p)])
  }

  function Left(s: Sys, r: nat): Sys {
    s.(handlers := s.handlers - {r})
  }

  /** A used key is refused; a known public key updates its node and leaves the key alone; a node is stored even when
      the save fails, and then the key is not marked. */
  function Next(s: Sys, e: Event): Sys
    requires Enabled(s, e)
  {
    match e
    case Begin(r, k, p) => if k in s.used then s else s.(handlers := s.handlers[r := Handler(k, p, Keyed)])
    case FindNode(r) => if s.handlers[r].publicKey in s.nodes then Left(s, r) else Moved(s, r, Unknown)
    case Allocate(r, ok) => if ok then Moved(s, r, Allocated) else Left(s, r)
    case Store(r, saved) =>
      var h := s.handlers[r];
      var s' := s.(nodes := s.nodes + multiset{h.publicKey}, admitted := s.admitted + multiset{h.authKey});
      if saved then Moved(s', r, Stored) else Left(s', r)
    case Mark(r) => Left(s.(used := s.used + {s.handlers[r].authKey}), r)
    case Delete(p) => s.(nodes := s.nodes - multiset{p})
  }

  // ---------------------------------------------------------------- two rules and what breaks them

  /** A single-use key admits one node; a public key has one node. */
  datatype Rule = OneUse | OneNode

  ghost predicate Keeps(rule: Rule, s: Sys) {
    match rule
    case OneUse => forall k :: s.admitted[k] <= 1
    case OneNode => forall p :: s.nodes[p] <= 1
  }

  /** Past the lookup of the node, and not yet stored. */
  predicate WillStore(h: Handler) {
    h.phase == Unknown || h.phase == Allocated
  }

  /** For the first rule: no lookup of a key that a handler under way holds, and no failed save. For the second: no
      lookup of a public key that another handler is about to store. */
  predicate Safe(rule: Rule, s: Sys, e: Event)
    requires Enabled(s, e)
  {
    match rule
    case OneUse =>
      (match e
       case Begin(_, k, _) => k in s.used || forall q | q in s.handlers :: s.handlers[q].authKey != k
       case Store(_, saved) => saved
       case _ => true)
    case OneNode =>
      e.FindNode? && s.handlers[e.r].publicKey !in s.nodes ==>
        forall q | q in s.handlers && WillStore(s.handlers[q]) :: s.handlers[q].publicKey != s.handlers[e.r].publicKey
  }

  ghost predicate SafeRun(rule: Rule, s: Sys, events: seq<Event>, s': Sys)
    decreases |events|
  {
    if events == [] then s == s'
    else
      Enabled(s, events[0]) && Safe(rule, s, events[0]) && SafeRun(rule, Next(s, events[0]), events[1..], s')
  }

  // ---------------------------------------------------------------- safe runs keep the rules

  /** A held key is unused, and has admitted a node only if its handler stored it. */
  ghost predicate HeldKeysAreUnused(s: Sys) {
    forall r | r in s.handlers :: s.handlers[r].authKey !in s.used &&
      s.admitted[s.handlers[r].authKey] == if s.handlers[r].phase == Stored then 1 else 0
  }

  ghost predicate KeysAreHeldOnce(s: Sys) {
    forall r, q | r in s.handlers && q in s.handlers && s.handlers[r].authKey == s.handlers[q].authKey :: r == q
  }

  ghost predicate Holds(s: Sys, k: string) {
    exists r :: r in s.handlers && s.handlers[r].authKey == k
  }

  /** A key that admitted a node is used or held. */
  ghost predicate AdmittedAreSpent(s: Sys) {
    forall k | k in s.admitted && k !in s.used :: Holds(s, k)
  }

  ghost predicate UseInv(s: Sys) {
    HeldKeysAreUnused(s) && KeysAreHeldOnce(s) && AdmittedAreSpent(s) && Keeps(OneUse, s)
  }

  /** A public key about to be stored has no node. */
  ghost predicate StoresUnknown(s: Sys) {
    forall r | r in s.handlers && WillStore(s.handlers[r]) :: s.handlers[r].publicKey !in s.nodes
  }

  /** And one handler. */
  ghost predicate StoresApart(s: Sys) {
    forall r, q | r in s.handlers && q in s.handlers && WillStore(s.handlers[r]) && WillStore(s.handlers[q]) &&
      s.handlers[r].publicKey == s.handlers[q].publicKey :: r == q
  }

  ghost predicate NodeInv(s: Sys) {
    StoresUnknown(s) && StoresApart(s) && Keeps(OneNode, s)
  }

  ghost predicate Inv(rule: Rule, s: Sys) {
    match rule
    case OneUse => UseInv(s)
    case OneNode => NodeInv(s)
  }

  lemma NextHeldUnused(s: Sys, e: Event)
    requires HeldKeysAreUnused(s) && KeysAreHeldOnce(s) && AdmittedAreSpent(s) && Enabled(s, e) && Safe(OneUse, s, e)
    ensures HeldKeysAreUnused(Next(s, e))
  {
    if e.Begin? && e.authKey !in s.used { assert !Holds(s, e.authKey); }
  }

  lemma NextHeldOnce(s: Sys, e: Event)
    requires KeysAreHeldOnce(s) && Enabled(s, e) && Safe(OneUse, s, e)
    ensures KeysAreHeldOnce(Next(s, e))
  {
  }

  lemma NextAdmittedSpent(s: Sys, e: Event)
    requires HeldKeysAreUnused(s) && AdmittedAreSpent(s) && Enabled(s, e) && Safe(OneUse, s, e)
    ensures AdmittedAreSpent(Next(s, e))
  {
    var s' := Next(s, e);
    forall k | k in s'.admitted && k !in s'.used ensures Holds(s', k) {
      if k in s.admitted {
        assert Holds(s, k);
        var r :| r in s.handlers && s.handlers[r].authKey == k;
        assert r in s'.handlers && s'.handlers[r].authKey == k;
      } else {
        assert s'.handlers[e.r].authKey == k;
      }
    }
  }

  lemma NextKeepsOneUse(s: Sys, e: Event)
    requires HeldKeysAreUnused(s) && Keeps(OneUse, s) && Enabled(s, e)
    ensures Keeps(OneUse, Next(s, e))
  {
  }

  lemma NextKeepsUse(s: Sys, e: Event)
    requires UseInv(s) && Enabled(s, e) && Safe(OneUse, s, e)
    ensures UseInv(Next(s, e))
  {
    NextHeldUnused(s, e);
    NextHeldOnce(s, e);
    NextAdmittedSpent(s, e);
    NextKeepsOneUse(s, e);
  }

  lemma NextStoresUnknown(s: Sys, e: Event)
    requires StoresUnknown(s) && StoresApart(s) && Enabled(s, e)
    ensures StoresUnknown(Next(s, e))
  {
  }

  lemma NextStoresApart(s: Sys, e: Event)
    requires StoresApart(s) && Enabled(s, e) && Safe(OneNode, s, e)
    ensures StoresApart(Next(s, e))
  {
  }

  lemma NextKeepsOneNode(s: Sys, e: Event)
    requires StoresUnknown(s) && Keeps(OneNode, s) && Enabled(s, e)
    ensures Keeps(OneNode, Next(s, e))
  {
  }

  lemma NextKeepsNode(s: Sys, e: Event)
    requires NodeInv(s) && Enabled(s, e) && Safe(OneNode, s, e)
    ensures NodeInv(Next(s, e))
  {
    NextStoresUnknown(s, e);
    NextStoresApart(s, e);
    NextKeepsOneNode(s, e);
  }

  lemma {:induction false} SafeRunsKeepInv(rule: Rule, s: Sys, events: seq<Event>, s': Sys)
    requires Inv(rule, s) && SafeRun(rule, s, events, s')
    ensures Inv(rule, s') && Keeps(rule, s')
    decreases |events|
  {
    if events != [] {
      if rule.OneUse? { NextKeepsUse(s, events[0]); } else { NextKeepsNode(s, events[0]); }
      SafeRunsKeepInv(rule, Next(s, events[0]), events[1..], s');
    }
  }

  /** Safe registrations admit one node per single-use key, and one per public key. */
  lemma SafeRegistrationsKeepRules(rule: Rule, events: seq<Event>, s: Sys)
    requires SafeRun(rule, NOBODY, events, s)
    ensures Keeps(rule, s)
  {
    SafeRunsKeepInv(rule, NOBODY, events, s);
  }

  // ---------------------------------------------------------------- an unsafe step breaks its rule

  lemma RunFirst(rule: Rule, s: Sys, e: Event, more: seq<Event>, end: Sys)
    requires Enabled(s, e) && Safe(rule, s, e) && SafeRun(rule, Next(s, e), more, end)
    ensures SafeRun(rule, s, [e] + more, end)
  {
    assert ([e] + more)[1..] == more;
  }

  /** The state after the first step: whatever safe steps reach from there is reached with that step in front. */
  lemma FirstStep(rule: Rule, s: Sys, events: seq<Event>, s': Sys) returns (next: Sys)
    requires SafeRun(rule, s, events, s') && events != []
    ensures SafeRun(rule, next, events[1..], s')
    ensures forall more, end | SafeRun(rule, next, more, end) :: SafeRun(rule, s, [events[0]] + more, end)
  {
    next := Next(s, events[0]);
    forall more, end | SafeRun(rule, next, more, end) ensures SafeRun(rule, s, [events[0]] + more, end) {
      RunFirst(rule, s, events[0], more, end);
    }
  }

  lemma {:induction false} SafeRunOn(rule: Rule, s: Sys, events: seq<Event>, mid: Sys, more: seq<Event>, end: Sys)
    requires SafeRun(rule, s, events, mid) && SafeRun(rule, mid, more, end)
    ensures SafeRun(rule, s, events + more, end)
    decreases |events|
  {
    if events == [] {
      assert events + more == more;
    } else {
      var first, rest := events[0], events[1..];
      Sequences.FirstOfMany(first, rest, more);
      assert events == [first] + rest;
      var next := FirstStep(rule, s, events, mid);
      SafeRunOn(rule, next, rest, mid, more, end);
    }
  }

  /** Some safe run leads from s to s'. */
  ghost predicate Leads(rule: Rule, s: Sys, s': Sys) {
    exists events :: SafeRun(rule, s, events, s')
  }

  lemma LeadsOn(rule: Rule, s: Sys, mid: Sys, end: Sys)
    requires Leads(rule, s, mid) && Leads(rule, mid, end)
    ensures Leads(rule, s, end)
  {
    var events :| SafeRun(rule, s, events, mid);
    var more :| SafeRun(rule, mid, more, end);
    SafeRunOn(rule, s, events, mid, more, end);
  }

  lemma LeadsTo(rule: Rule, s: Sys, e: Event)
    requires Enabled(s, e) && Safe(rule, s, e)
    ensures Leads(rule, s, s) && Leads(rule, s, Next(s, e))
  {
    var none: seq<Event> := [];
    assert SafeRun(rule, s, none, s) && SafeRun(rule, Next(s, e), none, Next(s, e));
    assert [e][1..] == none;
    assert SafeRun(rule, s, [e], Next(s, e));
  }

  /** The administrator deletes all nodes of a public key. */
  lemma {:induction false} Cleared(rule: Rule, s: Sys, p: string) returns (s': Sys)
    ensures Leads(rule, s, s') && p !in s'.nodes && s' == s.(nodes := s'.nodes)
    decreases s.nodes[p]
  {
    if p in s.nodes {
      LeadsTo(rule, s, Delete(p));
      s' := Cleared(rule, Next(s, Delete(p)), p);
      LeadsOn(rule, s, Next(s, Delete(p)), s');
    } else {
      var none: seq<Event> := [];
      assert SafeRun(rule, s, none, s);
      s' := s;
    }
  }

  /** The handler past its node lookup stores its node; nothing else changes. */
  lemma Finished(rule: Rule, s: Sys, r: nat) returns (s': Sys)
    requires r in s.handlers && WillStore(s.handlers[r])
    ensures Leads(rule, s, s') && s'.used == s.used
    ensures s'.nodes == s.nodes + multiset{s.handlers[r].publicKey}
    ensures s'.admitted == s.admitted + multiset{s.handlers[r].authKey}
    ensures s'.handlers == s.handlers[r := s.handlers[r].(phase := Stored)]
  {
    var mid := s;
    if s.handlers[r].phase == Unknown {
      LeadsTo(rule, s, Allocate(r, true));
      mid := Next(s, Allocate(r, true));
    }
    LeadsTo(rule, mid, Store(r, true));
    s' := Next(mid, Store(r, true));
    if mid != s { LeadsOn(rule, s, mid, s'); }
  }

  /** For the first rule every handler that has not stored yet can get there. */
  lemma Admitted(s: Sys, r: nat) returns (s': Sys)
    requires r in s.handlers && s.handlers[r].phase != Stored
    ensures Leads(OneUse, s, s') && s'.used == s.used
    ensures s'.admitted == s.admitted + multiset{s.handlers[r].authKey}
    ensures s'.handlers == s.handlers[r := s.handlers[r].(phase := Stored)]
  {
    if s.handlers[r].phase == Keyed {
      var s1 := Cleared(OneUse, s, s.handlers[r].publicKey);
      LeadsTo(OneUse, s1, FindNode(r));
      var s2 := Next(s1, FindNode(r));
      LeadsOn(OneUse, s, s1, s2);
      s' := Finished(OneUse, s2, r);
      LeadsOn(OneUse, s, s2, s');
    } else {
      s' := Finished(OneUse, s, r);
    }
  }

  /** A second lookup of a held key. */
  lemma SharedKeyAdmitsTwo(s: Sys, e: Event) returns (s': Sys)
    requires UseInv(s) && Enabled(s, e) && e.Begin? && !Safe(OneUse, s, e)
    ensures Leads(OneUse, Next(s, e), s') && s'.admitted[e.authKey] > 1
  {
    var q :| q in s.handlers && s.handlers[q].authKey == e.authKey;
    var s1 := Next(s, e);
    var s2 := Admitted(s1, e.r);
    if s2.handlers[q].phase == Stored {
      s' := s2;
    } else {
      s' := Admitted(s2, q);
      LeadsOn(OneUse, s1, s2, s');
    }
  }

  /** A save that fails leaves the node in the store and the key unmarked. */
  lemma FailedSaveAdmitsTwo(s: Sys, r: nat) returns (s': Sys)
    requires UseInv(s) && Enabled(s, Store(r, false))
    ensures Leads(OneUse, Next(s, Store(r, false)), s') && s'.admitted[s.handlers[r].authKey] > 1
  {
    var k, s1 := s.handlers[r].authKey, Next(s, Store(r, false));
    LeadsTo(OneUse, s1, Begin(r, k, ""));
    var s2 := Next(s1, Begin(r, k, ""));
    s' := Admitted(s2, r);
    LeadsOn(OneUse, s1, s2, s');
  }

  /** A second handler past the lookup of one public key. */
  lemma SharedPublicKeyHasTwo(s: Sys, r: nat) returns (s': Sys)
    requires NodeInv(s) && Enabled(s, FindNode(r)) && !Safe(OneNode, s, FindNode(r))
    ensures Leads(OneNode, Next(s, FindNode(r)), s') && s'.nodes[s.handlers[r].publicKey] > 1
  {
    var q :| q in s.handlers && WillStore(s.handlers[q]) && s.handlers[q].publicKey == s.handlers[r].publicKey;
    var s1 := Next(s, FindNode(r));
    var s2 := Finished(OneNode, s1, r);
    s' := Finished(OneNode, s2, q);
    LeadsOn(OneNode, s1, s2, s');
  }

  /** However safe registrations go on after the step, the rule is kept. */
  ghost predicate RuleHolds(rule: Rule, s: Sys, e: Event)
    requires Enabled(s, e)
  {
    forall s' | Leads(rule, Next(s, e), s') :: Keeps(rule, s')
  }

  /** In every state that safe steps reach, a step can be relied on to keep the rule exactly if it is safe: a single-use
      key admits two nodes exactly through a second lookup while a handler holds it or through a failed save, and a
      public key gets two nodes exactly through a second lookup before the first handler stores. */
  lemma StepKeepsRuleIff(rule: Rule, s: Sys, e: Event)
    requires Inv(rule, s) && Enabled(s, e)
    ensures RuleHolds(rule, s, e) <==> Safe(rule, s, e)
  {
    if Safe(rule, s, e) {
      forall s' | Leads(rule, Next(s, e), s') ensures Keeps(rule, s') {
        var events :| SafeRun(rule, Next(s, e), events, s');
        if rule.OneUse? { NextKeepsUse(s, e); } else { NextKeepsNode(s, e); }
        SafeRunsKeepInv(rule, Next(s, e), events, s');
      }
    } else if rule.OneNode? {
      var s' := SharedPublicKeyHasTwo(s, e.r);
      assert !Keeps(rule, s');
    } else if e.Begin? {
      var s' := SharedKeyAdmitsTwo(s, e);
      assert !Keeps(rule, s');
    } else {
      var s' := FailedSaveAdmitsTwo(s, e.r);
      assert !Keeps(rule, s');
    }
  }
}
