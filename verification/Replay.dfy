/** The sliding replay window: bit-packed array, value-level reading, and its agreement with a set of counters. */
module Replay {
  import opened Words

  const WINDOW_SIZE := 2048
  const WINDOW_WORDS := 32

  type Words32 = ws: seq<u64> | |ws| == WINDOW_WORDS witness seq(32, i => 0)
  type Slots = s: seq<bool> | |s| == WINDOW_SIZE witness seq(2048, i => false)

  /** Reading of Check and Advance: counter mod 2048 selects a slot, lowest bit of a word first. */
  predicate Slot(ws: Words32, s: int)
    requires 0 <= s < WINDOW_SIZE
  {
    Bit(ws[s / 64], s % 64)
  }

  /** Reading of slideBy: one string of 2048 bits, word 0 first, highest bit of a word first. */
  predicate Linear(ws: Words32, q: int)
    requires 0 <= q < WINDOW_SIZE
  {
    Bit(ws[q / 64], 63 - q % 64)
  }

  /** The string position that slideBy gives to a slot; an involution. */
  function Mirror(s: int): (q: int)
    requires 0 <= s < WINDOW_SIZE
    ensures 0 <= q < WINDOW_SIZE && q / 64 == s / 64 && q % 64 == 63 - s % 64
  {
    64 * (s / 64) + 63 - s % 64
  }

  lemma MirrorTwice(s: int)
    requires 0 <= s < WINDOW_SIZE
    ensures Mirror(Mirror(s)) == s
  {
    var q := Mirror(s);
    assert Mirror(q) == 64 * (s / 64) + 63 - (63 - s % 64);
  }

  // ---------------------------------------------------------------- value level

  /** What the window means: which slots are marked, and the lowest counter still inside. */
  datatype Window = Window(slots: Slots, floor: u64)

  function NoMarks(): Slots {
    seq(WINDOW_SIZE, i => false)
  }

  function Fresh(): Window {
    Window(NoMarks(), 0)
  }

  function SlotsOf(ws: Words32): Slots {
    seq(WINDOW_SIZE, s requires 0 <= s < WINDOW_SIZE => Slot(ws, s))
  }

  predicate Accepts(w: Window, c: u64) {
    c >= w.floor && (c - w.floor >= WINDOW_SIZE || !w.slots[c % WINDOW_SIZE])
  }

  /** How far Advance moves the floor before it marks the counter. */
  function Slide(floor: u64, c: u64): nat {
    if c >= floor && c - floor >= WINDOW_SIZE then c - floor - WINDOW_SIZE + 1 else 0
  }

  /** One left shift by n of the 2048-bit string, zero-filled, read back as slots. */
  function Shifted(slots: Slots, n: nat): Slots {
    seq(WINDOW_SIZE, s requires 0 <= s < WINDOW_SIZE =>
      Mirror(s) + n < WINDOW_SIZE && slots[Mirror(Mirror(s) + n)])
  }

  function Advanced(w: Window, c: u64): Window {
    if c < w.floor then w
    else
      var n := Slide(w.floor, c);
      Window(Shifted(w.slots, n)[c % WINDOW_SIZE := true], w.floor + n)
  }

  lemma ShiftedByNothing(slots: Slots)
    ensures Shifted(slots, 0) == slots
  {
    forall s | 0 <= s < WINDOW_SIZE
      ensures Shifted(slots, 0)[s] == slots[s]
    {
      MirrorTwice(s);
    }
  }

  lemma ShiftedAway(slots: Slots, n: nat)
    requires n >= WINDOW_SIZE
    ensures Shifted(slots, n) == NoMarks()
  {
  }

  // ---------------------------------------------------------------- agreement with a set of counters

  /** Check answers as the plain set of counters advanced so far would. */
  ghost predicate Agrees(w: Window, seen: set<u64>) {
    forall c: u64 :: Accepts(w, c) <==> c >= w.floor && c !in seen
  }

  /** The slides on which the two bit layouts cannot be told apart. */
  predicate WholeSlide(n: nat) {
    n == 0 || n >= WINDOW_SIZE
  }

  lemma AdvanceKeepsAgreement(w: Window, seen: set<u64>, c: u64)
    requires Agrees(w, seen) && WholeSlide(Slide(w.floor, c))
    ensures Agrees(Advanced(w, c), seen + {c})
  {
    var w' := Advanced(w, c);
    ShiftedByNothing(w.slots);
    if Slide(w.floor, c) > 0 { ShiftedAway(w.slots, Slide(w.floor, c)); }
    forall d: u64
      ensures Accepts(w', d) <==> d >= w'.floor && d !in seen + {c}
    {
      assert Accepts(w, d) <==> d >= w.floor && d !in seen;
      if w'.floor <= d < w'.floor + WINDOW_SIZE && c >= w'.floor {
        if d % WINDOW_SIZE == c % WINDOW_SIZE { SameSlotSameCounter(w'.floor, c, d); }
      }
    }
  }

  lemma SameSlotSameCounter(floor: int, c: int, d: int)
    requires floor <= c < floor + WINDOW_SIZE && floor <= d < floor + WINDOW_SIZE
    requires c % WINDOW_SIZE == d % WINDOW_SIZE
    ensures c == d
  {
  }

  /** The counter k stays inside the window over the slide, yet its mark leaves its slot. */
  lemma PartialSlideForgets(w: Window, c: u64, k: u64)
    requires 0 < Slide(w.floor, c) < WINDOW_SIZE
    requires w.floor + Slide(w.floor, c) <= k < w.floor + WINDOW_SIZE
    requires forall s | 0 <= s < WINDOW_SIZE :: w.slots[s] <==> s == k % WINDOW_SIZE
    ensures Accepts(Advanced(w, c), k)
  {
    var n, s := Slide(w.floor, c), k % WINDOW_SIZE;
    var w' := Advanced(w, c);
    assert c == w.floor + n + WINDOW_SIZE - 1;
    assert s != c % WINDOW_SIZE by {
      if s == c % WINDOW_SIZE { SameSlotSameCounter(w.floor + n, c, k); }
    }
    if Mirror(s) + n < WINDOW_SIZE {
      MirrorTwice(Mirror(s) + n);
      MirrorTwice(s);
      assert Mirror(Mirror(s) + n) != s;
    }
    assert !w'.slots[s];
  }

  /** Advancing by c keeps agreement on every window content with this floor exactly when the slide is whole. */
  lemma AdvanceAgreementExact(floor: u64, c: u64)
    ensures (forall slots: Slots, seen: set<u64> | Agrees(Window(slots, floor), seen) ::
              Agrees(Advanced(Window(slots, floor), c), seen + {c}))
            <==> WholeSlide(Slide(floor, c))
  {
    var n := Slide(floor, c);
    if WholeSlide(n) {
      forall slots: Slots, seen: set<u64> | Agrees(Window(slots, floor), seen)
        ensures Agrees(Advanced(Window(slots, floor), c), seen + {c})
      {
        AdvanceKeepsAgreement(Window(slots, floor), seen, c);
      }
    } else {
      var k: u64 := floor + n;
      var slots: Slots := NoMarks()[k % WINDOW_SIZE := true];
      var w := Window(slots, floor);
      forall d: u64
        ensures Accepts(w, d) <==> d >= floor && d !in {k}
      {
        if floor <= d < floor + WINDOW_SIZE && d % WINDOW_SIZE == k % WINDOW_SIZE {
          SameSlotSameCounter(floor, d, k);
        }
      }
      assert Agrees(w, {k});
      PartialSlideForgets(w, c, k);
      assert !Agrees(Advanced(w, c), {k} + {c});
    }
  }

  // ---------------------------------------------------------------- whole runs

  function Run(w: Window, cs: seq<u64>): Window {
    if cs == [] then w else Advanced(Run(w, cs[..|cs| - 1]), cs[|cs| - 1])
  }

  predicate WholeSlides(w: Window, cs: seq<u64>) {
    cs == [] ||
    (WholeSlides(w, cs[..|cs| - 1]) && WholeSlide(Slide(Run(w, cs[..|cs| - 1]).floor, cs[|cs| - 1])))
  }

  /** Along every run of whole slides Check agrees with the set of all counters advanced. */
  lemma {:induction false} RunAgrees(cs: seq<u64>)
    requires WholeSlides(Fresh(), cs)
    ensures Agrees(Run(Fresh(), cs), set c | c in cs)
  {
    if cs != [] {
      var front, last := cs[..|cs| - 1], cs[|cs| - 1];
      RunAgrees(front);
      AdvanceKeepsAgreement(Run(Fresh(), front), (set c | c in front), last);
      assert cs == front + [last];
      assert (set c | c in cs) == (set c | c in front) + {last};
    }
  }

  /** Counters below the window size never slide, so any run of them keeps the floor and agrees. */
  lemma {:induction false} EarlyCountersAgree(cs: seq<u64>)
    requires forall c | c in cs :: c < WINDOW_SIZE
    ensures WholeSlides(Fresh(), cs) && Run(Fresh(), cs).floor == 0
    ensures forall c: u64 :: Accepts(Run(Fresh(), cs), c) <==> c !in cs
  {
    if cs != [] {
      var front, last := cs[..|cs| - 1], cs[|cs| - 1];
      assert cs == front + [last];
      forall c | c in front ensures c < WINDOW_SIZE { assert c in cs; }
      EarlyCountersAgree(front);
      assert last in cs;
    }
    RunAgrees(cs);
  }

  /** The floor is where it started, or 2047 behind a counter of the run that no counter of the run exceeds. */
  lemma {:induction false} FloorFollowsTheTop(cs: seq<u64>)
    ensures var floor := Run(Fresh(), cs).floor;
            (floor == 0 && forall c | c in cs :: c < WINDOW_SIZE) ||
            ((forall c | c in cs :: c <= floor + (WINDOW_SIZE - 1)) && exists c :: c in cs && c == floor + (WINDOW_SIZE - 1))
  {
    if cs != [] {
      var front, last := cs[..|cs| - 1], cs[|cs| - 1];
      FloorFollowsTheTop(front);
      assert cs == front + [last];
      var before, floor := Run(Fresh(), front).floor, Run(Fresh(), cs).floor;
      if Slide(before, last) > 0 {
        assert last == floor + (WINDOW_SIZE - 1) && last in cs;
      } else if before > 0 || exists c :: c in front && c == before + (WINDOW_SIZE - 1) {
        var top :| top in front && top == before + (WINDOW_SIZE - 1);
        assert top in cs && top == floor + (WINDOW_SIZE - 1);
      }
    }
  }

  /** A counter above all that were advanced is accepted, whatever slides the run has made. */
  lemma NewestIsAccepted(cs: seq<u64>, c: u64)
    requires forall d | d in cs :: d < c
    ensures Accepts(Run(Fresh(), cs), c)
  {
    FloorFollowsTheTop(cs);
    var floor := Run(Fresh(), cs).floor;
    if floor == 0 && forall d | d in cs :: d < WINDOW_SIZE {
      EarlyCountersAgree(cs);
      assert c !in cs;
    } else {
      var top :| top in cs && top == floor + (WINDOW_SIZE - 1);
      assert c > top;
    }
  }

  /** A two-packet run with a slide of one: the window accepts 2047 although it was advanced. */
  lemma SlideOfOneForgets()
    ensures var w := Run(Fresh(), [2047, 2048]);
            Accepts(w, 2047) && !Agrees(w, {2047, 2048})
  {
    var w := Advanced(Fresh(), 2047);
    FirstCounter();
    PartialSlideForgets(w, 2048, 2047);
    RunOfTwo(Fresh(), 2047, 2048);
  }

  /** A counter inside the window is rejected when a slide carries any mark into its slot. */
  lemma PartialSlideRejects(w: Window, c: u64, d: u64, from: nat)
    requires 0 < Slide(w.floor, c) && from < WINDOW_SIZE && w.slots[from]
    requires Mirror(from) == Mirror(d % WINDOW_SIZE) + Slide(w.floor, c)
    requires w.floor + Slide(w.floor, c) <= d < w.floor + Slide(w.floor, c) + WINDOW_SIZE
    ensures !Accepts(Advanced(w, c), d)
  {
    MirrorTwice(from);
    assert Shifted(w.slots, Slide(w.floor, c))[d % WINDOW_SIZE];
  }

  /** The same run rejects the counter 1920, which was never advanced. */
  lemma SlideOfOneRejects()
    ensures !Accepts(Run(Fresh(), [2047, 2048]), 1920)
  {
    FirstCounter();
    RunOfTwo(Fresh(), 2047, 2048);
    MarkMovesTo1920();
  }

  lemma MarkMovesTo1920()
    ensures !Accepts(Advanced(Window(NoMarks()[2047 := true], 0), 2048), 1920)
  {
    var d := 1920;
    assert d % WINDOW_SIZE == 1920;
    PartialSlideRejects(Window(NoMarks()[2047 := true], 0), 2048, d, 2047);
  }

  lemma FirstCounter()
    ensures Advanced(Fresh(), 2047) == Window(NoMarks()[2047 := true], 0)
  {
    ShiftedByNothing(NoMarks());
  }

  lemma RunOfTwo(w: Window, a: u64, b: u64)
    ensures Run(w, [a, b]) == Advanced(Advanced(w, a), b)
  {
    var one: seq<u64> := [a];
    assert one[..0] == [] && [a, b][..1] == one;
    assert Run(w, one) == Advanced(w, a);
  }

  /** The floor never moves back, and a packet behind it is never accepted again. */
  lemma {:induction false} FloorIsMonotone(w: Window, cs: seq<u64>)
    ensures w.floor <= Run(w, cs).floor
    ensures forall c: u64 | c < w.floor :: !Accepts(Run(w, cs), c)
  {
    if cs != [] { FloorIsMonotone(w, cs[..|cs| - 1]); }
  }

  /** Clearing only the slots of counters that newly enter the window. */
  function RingCleared(slots: Slots, floor: u64, n: nat): Slots {
    seq(WINDOW_SIZE, s requires 0 <= s < WINDOW_SIZE =>
      slots[s] && (s - floor) % WINDOW_SIZE >= n)
  }

  /** With such a slide in the place of the linear shift, agreement holds whatever the slide. */
  lemma RingSlideAgrees(w: Window, seen: set<u64>, c: u64)
    requires Agrees(w, seen) && c >= w.floor
    ensures var n := Slide(w.floor, c);
            Agrees(Window(RingCleared(w.slots, w.floor, n)[c % WINDOW_SIZE := true], w.floor + n), seen + {c})
  {
    var n := Slide(w.floor, c);
    var w' := Window(RingCleared(w.slots, w.floor, n)[c % WINDOW_SIZE := true], w.floor + n);
    forall d: u64
      ensures Accepts(w', d) <==> d >= w'.floor && d !in seen + {c}
    {
      assert Accepts(w, d) <==> d >= w.floor && d !in seen;
      if w'.floor <= d < w'.floor + WINDOW_SIZE {
        var s := d % WINDOW_SIZE;
        if s == c % WINDOW_SIZE { SameSlotSameCounter(w'.floor, c, d); }
        SlotOffset(w.floor, d);
      }
    }
  }

  /** A whole run with such slides. */
  function RingRun(w: Window, cs: seq<u64>): Window {
    if cs == [] then w
    else
      var before, c := RingRun(w, cs[..|cs| - 1]), cs[|cs| - 1];
      if c < before.floor then before
      else
        var n := Slide(before.floor, c);
        Window(RingCleared(before.slots, before.floor, n)[c % WINDOW_SIZE := true], before.floor + n)
  }

  /** With ring slides every run agrees with the set of counters advanced, and the floor follows the counters as in
      the code. */
  lemma {:induction false} RingRunAgrees(cs: seq<u64>)
    ensures Agrees(RingRun(Fresh(), cs), set c | c in cs)
    ensures RingRun(Fresh(), cs).floor == Run(Fresh(), cs).floor
  {
    if cs != [] {
      var front, last := cs[..|cs| - 1], cs[|cs| - 1];
      RingRunAgrees(front);
      var before := RingRun(Fresh(), front);
      assert (set c | c in cs) == (set c | c in front) + {last} by { assert cs == front + [last]; }
      if last >= before.floor { RingSlideAgrees(before, (set c | c in front), last); }
    }
  }

  lemma SlotOffset(floor: int, d: int)
    ensures (d % WINDOW_SIZE - floor) % WINDOW_SIZE == (d - floor) % WINDOW_SIZE
  {
  }

  // ---------------------------------------------------------------- the packed array

  /** The array after the word copy of a slide: words move down, zeros fill in. */
  predicate WordsMoved(before: Words32, after: Words32, k: nat) {
    forall j | 0 <= j < WINDOW_WORDS ::
      after[j] == if j + k < WINDOW_WORDS then before[j + k] else 0
  }

  /** Word j of the bit shift: its own high part and the top bits of the word after it. */
  function CarryWord(ws: Words32, b: nat, j: int): nat
    requires 0 < b < 64 && 0 <= j < WINDOW_WORDS
  {
    Or(Shl(ws[j], b), if j + 1 < WINDOW_WORDS then Shr(ws[j + 1], 64 - b) else 0)
  }

  lemma CarryWordBit(ws: Words32, b: nat, j: int, i: nat)
    requires 0 < b < 64 && 0 <= j < WINDOW_WORDS && i < 64
    ensures Bit(CarryWord(ws, b, j), i) ==
            if i >= b then Bit(ws[j], i - b) else j + 1 < WINDOW_WORDS && Bit(ws[j + 1], i + 64 - b)
  {
    var carry := if j + 1 < WINDOW_WORDS then Shr(ws[j + 1], 64 - b) else 0;
    BitOr(Shl(ws[j], b), carry, i);
    BitShl(ws[j], b, i);
    BitOfZero(i);
    if j + 1 < WINDOW_WORDS {
      BitShr(ws[j + 1], 64 - b, i);
      TwoTo64();
      if i >= b { BitAbove(ws[j + 1], 64, i + (64 - b)); }
    }
  }

  /** after is before shifted left by n as one string of bits, zero-filled. */
  ghost predicate ShiftedLeft(before: Words32, after: Words32, n: nat) {
    forall q | 0 <= q < WINDOW_SIZE :: Linear(after, q) == (q + n < WINDOW_SIZE && Linear(before, q + n))
  }

  /** Word copy by n / 64 followed by carry shift by n % 64 is one left shift by n of the string. */
  lemma PackedShift(before: Words32, moved: Words32, after: Words32, n: nat)
    requires n < WINDOW_SIZE && WordsMoved(before, moved, n / 64)
    requires n % 64 == 0 ==> after == moved
    requires n % 64 > 0 ==> forall j | 0 <= j < WINDOW_WORDS :: after[j] == CarryWord(moved, n % 64, j)
    ensures ShiftedLeft(before, after, n)
  {
    forall q | 0 <= q < WINDOW_SIZE
      ensures Linear(after, q) == (q + n < WINDOW_SIZE && Linear(before, q + n))
    {
      PackedShiftAt(before, moved, after, n, q);
    }
  }

  lemma PackedShiftAt(before: Words32, moved: Words32, after: Words32, n: nat, q: nat)
    requires n < WINDOW_SIZE && q < WINDOW_SIZE && WordsMoved(before, moved, n / 64)
    requires n % 64 == 0 ==> after == moved
    requires n % 64 > 0 ==> after[q / 64] == CarryWord(moved, n % 64, q / 64)
    ensures Linear(after, q) == (q + n < WINDOW_SIZE && Linear(before, q + n))
  {
    var j, i, b, k := q / 64, 63 - q % 64, n % 64, n / 64;
    ShiftedPosition(q, n);
    if i >= b {
      BitOfZero(i - b);
      if b > 0 { CarryWordBit(moved, b, j, i); }
      assert Linear(after, q) == Bit(moved[j], i - b);
    } else {
      BitOfZero(i + 64 - b);
      CarryWordBit(moved, b, j, i);
      assert Linear(after, q) == (j + 1 < WINDOW_WORDS && Bit(moved[j + 1], i + 64 - b));
    }
  }

  lemma ShiftedPosition(q: nat, n: nat)
    ensures var i, b := 63 - q % 64, n % 64;
            (q + n) / 64 == q / 64 + n / 64 + (if i >= b then 0 else 1) &&
            63 - (q + n) % 64 == if i >= b then i - b else i + 64 - b
  {
  }

  /** The shift of the string is the shift of the slots. */
  lemma SlotsShifted(before: Words32, after: Words32, n: nat)
    requires ShiftedLeft(before, after, n)
    ensures SlotsOf(after) == Shifted(SlotsOf(before), n)
  {
    forall s | 0 <= s < WINDOW_SIZE
      ensures SlotsOf(after)[s] == Shifted(SlotsOf(before), n)[s]
    {
      SlotShifted(before, after, n, s);
    }
  }

  lemma SlotShifted(before: Words32, after: Words32, n: nat, s: nat)
    requires s < WINDOW_SIZE && ShiftedLeft(before, after, n)
    ensures SlotsOf(after)[s] == Shifted(SlotsOf(before), n)[s]
  {
    var q := Mirror(s);
    assert Slot(after, s) == Linear(after, q);
    if q + n < WINDOW_SIZE {
      var t := Mirror(q + n);
      assert Slot(before, t) == Linear(before, q + n);
    }
  }

  lemma SlotMarked(before: Words32, after: Words32, c: u64)
    requires var k := c % WINDOW_SIZE / 64;
             after == before[k := after[k]] && after[k] == Or(before[k], Shl(1, c % 64))
    ensures SlotsOf(after) == SlotsOf(before)[c % WINDOW_SIZE := true]
  {
    var m := c % WINDOW_SIZE;
    SlotInWord(c);
    var k, b := m / 64, m % 64;
    assert after[k] == Or(before[k], Shl(1, b));
    forall s | 0 <= s < WINDOW_SIZE
      ensures SlotsOf(after)[s] == SlotsOf(before)[m := true][s]
    {
      OneSlotMarked(before, after, m, k, b, s);
    }
  }

  lemma SlotInWord(c: u64)
    ensures c % WINDOW_SIZE % 64 == c % 64
  {
  }

  lemma OneSlotMarked(before: Words32, after: Words32, m: nat, k: nat, b: nat, s: nat)
    requires m < WINDOW_SIZE && k == m / 64 && b == m % 64 && s < WINDOW_SIZE
    requires after == before[k := after[k]] && after[k] == Or(before[k], Shl(1, b))
    ensures Slot(after, s) == (s == m || Slot(before, s))
  {
    if s / 64 == k { OrOneBit(before[k], b, s % 64); }
  }

  lemma OrOneBit(w: u64, b: nat, i: nat)
    requires b < 64 && i < 64
    ensures Bit(Or(w, Shl(1, b)), i) == (i == b || Bit(w, i))
  {
    BitOr(w, Shl(1, b), i);
    BitShl(1, b, i);
    if i > b { BitOneOnly(i - b); }
  }

  lemma AdvancedIs(w: Window, c: u64, w': Window)
    requires c >= w.floor && w'.floor == w.floor + Slide(w.floor, c)
    requires w'.slots == Shifted(w.slots, Slide(w.floor, c))[c % WINDOW_SIZE := true]
    ensures w' == Advanced(w, c)
  {
  }

  lemma FloorFits(floor: u64, counter: u64)
    requires counter - floor >= WINDOW_SIZE
    ensures (floor + (counter - floor - WINDOW_SIZE + 1)) % TWO64 == floor + (counter - floor - WINDOW_SIZE + 1)
  {
  }

  class ReplayWindow {
    const bitmap: array<u64>
    var floor: u64

    ghost predicate Valid()
      reads this
    {
      bitmap.Length == WINDOW_WORDS
    }

    ghost function View(): Window
      reads this, bitmap
      requires Valid()
    {
      Window(SlotsOf(bitmap[..]), floor)
    }

    constructor ()
      ensures Valid() && fresh(bitmap) && View() == Fresh()
    {
      bitmap := new u64[WINDOW_WORDS](i => 0);
      floor := 0;
      new;
      AllZero(bitmap[..]);
    }

    /** Whether the counter is acceptable; the window does not move. */
    method Check(counter: u64) returns (ok: bool)
      requires Valid()
      ensures ok == Accepts(View(), counter)
    {
      if counter < floor { return false; }
      if counter - floor >= WINDOW_SIZE { return true; }
      var idx, bit := counter % WINDOW_SIZE / 64, counter % 64;
      assert counter % WINDOW_SIZE % 64 == bit;
      MaskTest(bitmap[idx], bit);
      assert View().slots[counter % WINDOW_SIZE] == Slot(bitmap[..], counter % WINDOW_SIZE);
      return And(bitmap[idx], Shl(1, bit)) == 0;
    }

    /** Marks the counter and slides the window if the counter is ahead of it. */
    method Advance(counter: u64)
      requires Valid()
      modifies this`floor, bitmap
      ensures View() == Advanced(old(View()), counter)
      ensures Slide(old(floor), counter) > 0 ==> floor == counter - (WINDOW_SIZE - 1)
    {
      if counter < floor { return; }
      ghost var w := View();
      MakeRoom(counter);
      Mark(counter);
      AdvancedIs(w, counter, View());
    }

    /** Slides just far enough for a counter past the window; the floor does not wrap. */
    method MakeRoom(counter: u64)
      requires Valid() && counter >= floor
      modifies this`floor, bitmap
      ensures floor == old(floor) + Slide(old(floor), counter)
      ensures SlotsOf(bitmap[..]) == Shifted(old(SlotsOf(bitmap[..])), Slide(old(floor), counter))
    {
      if counter - floor >= WINDOW_SIZE {
        FloorFits(floor, counter);
        SlideBy(counter - floor - WINDOW_SIZE + 1);
      } else {
        ShiftedByNothing(SlotsOf(bitmap[..]));
      }
    }

    method Mark(counter: u64)
      requires Valid()
      modifies bitmap
      ensures SlotsOf(bitmap[..]) == old(SlotsOf(bitmap[..]))[counter % WINDOW_SIZE := true]
    {
      ghost var before := bitmap[..];
      var idx, bit := counter % WINDOW_SIZE / 64, counter % 64;
      OrFits(bitmap[idx], Shl(1, bit));
      bitmap[idx] := Or(bitmap[idx], Shl(1, bit));
      SlotMarked(before, bitmap[..], counter);
    }

    /** One left shift by n of the 2048-bit string; the floor moves by n on 64 bits. */
    method SlideBy(n: u64)
      requires Valid()
      modifies this`floor, bitmap
      ensures floor == (old(floor) + n) % TWO64
      ensures ShiftedLeft(old(bitmap[..]), bitmap[..], n)
      ensures SlotsOf(bitmap[..]) == Shifted(old(SlotsOf(bitmap[..])), n)
    {
      ghost var before: Words32 := bitmap[..];
      floor := (floor + n) % TWO64;
      if n >= WINDOW_SIZE {
        forall j | 0 <= j < WINDOW_WORDS { bitmap[j] := 0; }
        AllZero(bitmap[..]);
        SlotsShifted(before, bitmap[..], n);
        return;
      }
      var wordAdvance, bitAdvance := n / 64, n % 64;
      if wordAdvance > 0 { MoveWords(wordAdvance); }
      ghost var moved: Words32 := bitmap[..];
      if bitAdvance > 0 { ShiftWithCarry(bitAdvance); }
      PackedShift(before, moved, bitmap[..], n);
      SlotsShifted(before, bitmap[..], n);
    }

    /** copy(bitmap, bitmap[k:]) and the loop that zeroes the vacated words. */
    method MoveWords(k: nat)
      requires Valid() && 0 < k < WINDOW_WORDS
      modifies bitmap
      ensures WordsMoved(old(bitmap[..]), bitmap[..], k)
    {
      forall j | 0 <= j < WINDOW_WORDS - k { bitmap[j] := bitmap[j + k]; }
      for i := WINDOW_WORDS - k to WINDOW_WORDS
        invariant forall j | 0 <= j < WINDOW_WORDS - k :: bitmap[j] == old(bitmap[j + k])
        invariant forall j | WINDOW_WORDS - k <= j < i :: bitmap[j] == 0
      {
        bitmap[i] := 0;
      }
    }

    /** The loop from the last word to the first that carries the top bits down. */
    method ShiftWithCarry(b: nat)
      requires Valid() && 0 < b < 64
      modifies bitmap
      ensures forall j | 0 <= j < WINDOW_WORDS :: bitmap[..][j] == CarryWord(old(bitmap[..]), b, j)
    {
      ghost var before: Words32 := bitmap[..];
      var carry: u64 := 0;
      var i := WINDOW_WORDS - 1;
      while i >= 0
        invariant -1 <= i < WINDOW_WORDS
        invariant carry == if i + 1 < WINDOW_WORDS then Shr(before[i + 1], 64 - b) else 0
        invariant forall j | 0 <= j <= i :: bitmap[j] == before[j]
        invariant forall j | i < j < WINDOW_WORDS :: bitmap[j] == CarryWord(before, b, j)
      {
        var newCarry := Shr(bitmap[i], 64 - b);
        OrFits(Shl(bitmap[i], b), carry);
        bitmap[i] := Or(Shl(bitmap[i], b), carry);
        carry := newCarry;
        i := i - 1;
      }
    }

    method Reset()
      requires Valid()
      modifies this`floor, bitmap
      ensures View() == Fresh()
    {
      forall j | 0 <= j < WINDOW_WORDS { bitmap[j] := 0; }
      floor := 0;
      AllZero(bitmap[..]);
    }
  }

  lemma AllZero(ws: Words32)
    requires forall j | 0 <= j < WINDOW_WORDS :: ws[j] == 0
    ensures SlotsOf(ws) == NoMarks()
    ensures forall q | 0 <= q < WINDOW_SIZE :: !Linear(ws, q)
  {
    forall i: nat ensures !Bit(0, i) { BitOfZero(i); }
  }
}
