/** DNS names on the wire (sections 3.1 and 4.1.4 of RFC 1035): labels, compression pointers, and the answers the
    resolver builds. */
module Dns {
  import opened Words
  import opened Buffers

  const DOT: u8 := 46
  const COMPRESSED := 0xC0
  const HEADER := 12
  const NAME_AT_QUESTION := 0xC00C

  // ---------------------------------------------------------------- names as labels

  function Join(labels: seq<Bytes>): Bytes {
    if labels == [] then []
    else if |labels| == 1 then labels[0]
    else labels[0] + [DOT] + Join(labels[1..])
  }

  /** The pieces between the dots; one piece when there is no dot. */
  function Split(name: Bytes): (labels: seq<Bytes>)
    ensures labels != []
  {
    if name == [] then [[]]
    else
      var rest := Split(name[1..]);
      if name[0] == DOT then [[]] + rest else [[name[0]] + rest[0]] + rest[1..]
  }

  function TrimDot(name: Bytes): Bytes {
    if name != [] && name[|name| - 1] == DOT then name[..|name| - 1] else name
  }

  /** Length byte and text per label, empty labels skipped; the length byte keeps 8 bits. */
  function EncodeLabels(labels: seq<Bytes>): Bytes {
    if labels == [] then [0]
    else (if labels[0] == [] then [] else [|labels[0]| % 256] + labels[0]) + EncodeLabels(labels[1..])
  }

  function EncodeName(name: Bytes): Bytes {
    EncodeLabels(Split(TrimDot(name)))
  }

  // ---------------------------------------------------------------- parsing

  /** One run of labels: it ends the name, jumps to a pointer's target, or leaves the packet. */
  datatype Segment = Ends(labels: seq<Bytes>, next: nat) | Jumps(labels: seq<Bytes>, target: nat, next: nat) | Bad

  /** The offset in a pointer: its two top bits masked off. */
  function Target(high: u8, low: u8): nat
    requires high >= COMPRESSED
  {
    (high - COMPRESSED) * 256 + low
  }

  function Scan(buf: Bytes, pos: nat): (s: Segment)
    ensures !s.Bad? ==> pos < s.next <= |buf|
    decreases |buf| - pos
  {
    if pos >= |buf| then Bad
    else
      var length := buf[pos];
      if length == 0 then Ends([], pos + 1)
      else if length >= COMPRESSED then
        if pos + 2 > |buf| then Bad else Jumps([], Target(length, buf[pos + 1]), pos + 2)
      else if pos + 1 + length > |buf| then Bad
      else WithLabel(buf[pos + 1..pos + 1 + length], Scan(buf, pos + 1 + length))
  }

  function WithLabel(first: Bytes, s: Segment): Segment {
    if s.Bad? then Bad else s.(labels := [first] + s.labels)
  }

  /** Following at most depth pointers reaches the end of the name or an error. */
  predicate EndsWithin(buf: Bytes, pos: nat, depth: nat)
    decreases depth
  {
    var s := Scan(buf, pos);
    s.Jumps? ==> depth > 0 && EndsWithin(buf, s.target, depth - 1)
  }

  datatype Parsed = Name(name: Bytes, next: nat) | Malformed

  function ParseName(buf: Bytes, pos: nat, depth: nat): (r: Parsed)
    requires EndsWithin(buf, pos, depth)
    ensures r.Name? ==> pos < r.next <= |buf|
    decreases depth
  {
    match Scan(buf, pos)
    case Bad => Malformed
    case Ends(labels, next) => Name(Join(labels), next)
    case Jumps(labels, target, next) =>
      match ParseName(buf, target, depth - 1)
      case Malformed => Malformed
      case Name(rest, _) => Name(Join(labels + [rest]), next)
  }

  // ---------------------------------------------------------------- termination

  lemma {:induction false} MoreDepth(buf: Bytes, pos: nat, depth: nat, more: nat)
    requires EndsWithin(buf, pos, depth) && depth <= more
    ensures EndsWithin(buf, pos, more) && ParseName(buf, pos, more) == ParseName(buf, pos, depth)
    decreases depth
  {
    var s := Scan(buf, pos);
    if s.Jumps? { MoreDepth(buf, s.target, depth - 1, more - 1); }
  }

  /** The number of pointers followed. */
  ghost function Pointers(buf: Bytes, pos: nat, depth: nat): (n: nat)
    requires EndsWithin(buf, pos, depth)
    ensures n <= depth
    decreases depth
  {
    var s := Scan(buf, pos);
    if s.Jumps? then 1 + Pointers(buf, s.target, depth - 1) else 0
  }

  lemma {:induction false} PointersEnough(buf: Bytes, pos: nat, depth: nat, enough: nat)
    requires EndsWithin(buf, pos, depth) && Pointers(buf, pos, depth) <= enough
    ensures EndsWithin(buf, pos, enough) && Pointers(buf, pos, enough) == Pointers(buf, pos, depth)
    decreases depth
  {
    var s := Scan(buf, pos);
    if s.Jumps? { PointersEnough(buf, s.target, depth - 1, enough - 1); }
  }

  /** The starts of the segments that end in a pointer. */
  ghost function JumpStarts(buf: Bytes, pos: nat, depth: nat): set<nat>
    requires EndsWithin(buf, pos, depth)
    decreases depth
  {
    var s := Scan(buf, pos);
    if s.Jumps? then {pos} + JumpStarts(buf, s.target, depth - 1) else {}
  }

  /** No start comes twice: each has its own number of pointers to go. */
  lemma {:induction false} StartsAreDistinct(buf: Bytes, pos: nat, depth: nat)
    requires EndsWithin(buf, pos, depth)
    ensures |JumpStarts(buf, pos, depth)| == Pointers(buf, pos, depth)
    ensures forall p | p in JumpStarts(buf, pos, depth) ::
              p < |buf| && EndsWithin(buf, p, depth) && Pointers(buf, p, depth) <= Pointers(buf, pos, depth)
    decreases depth
  {
    var s := Scan(buf, pos);
    if s.Jumps? {
      StartsAreDistinct(buf, s.target, depth - 1);
      forall p | p in JumpStarts(buf, s.target, depth - 1)
        ensures p < |buf| && EndsWithin(buf, p, depth) && Pointers(buf, p, depth) < Pointers(buf, pos, depth)
      {
        PointersEnough(buf, p, depth - 1, depth);
      }
    }
  }

  lemma {:induction false} BoundedSet(s: set<nat>, n: nat)
    requires forall x | x in s :: x < n
    ensures |s| <= n
    decreases n
  {
    if n > 0 {
      BoundedSet(s - {n - 1}, n - 1);
      assert s <= (s - {n - 1}) + {n - 1};
      if n - 1 in s { assert |s| == |s - {n - 1}| + 1; } else { assert s == s - {n - 1}; }
    } else if x :| x in s {
      assert false;
    }
  }

  /** Parsing a name ends at all exactly when it ends within as many pointers as the packet has bytes. */
  lemma ParsingEndsIff(buf: Bytes, pos: nat)
    ensures (exists depth: nat :: EndsWithin(buf, pos, depth)) <==> EndsWithin(buf, pos, |buf|)
  {
    if depth: nat :| EndsWithin(buf, pos, depth) {
      StartsAreDistinct(buf, pos, depth);
      BoundedSet(JumpStarts(buf, pos, depth), |buf|);
      PointersEnough(buf, pos, depth, |buf|);
    }
  }

  /** Every pointer reached from pos targets an offset below the start of its segment. */
  ghost predicate PointsBack(buf: Bytes, pos: nat)
    decreases pos
  {
    var s := Scan(buf, pos);
    s.Jumps? ==> s.target < pos && PointsBack(buf, s.target)
  }

  /** Backward pointers make parsing end. */
  lemma {:induction false} BackwardPointersEnd(buf: Bytes, pos: nat)
    requires PointsBack(buf, pos)
    ensures EndsWithin(buf, pos, pos)
    decreases pos
  {
    var s := Scan(buf, pos);
    if s.Jumps? {
      BackwardPointersEnd(buf, s.target);
      MoreDepth(buf, s.target, s.target, pos - 1);
    }
  }

  /** A pointer to its own segment's start never ends. */
  lemma {:induction false} SelfPointerNeverEnds(buf: Bytes, pos: nat, depth: nat)
    requires Scan(buf, pos).Jumps? && Scan(buf, pos).target == pos
    ensures !EndsWithin(buf, pos, depth)
  {
    if depth > 0 { SelfPointerNeverEnds(buf, pos, depth - 1); }
  }

  // ---------------------------------------------------------------- names round-trip

  ghost predicate Plain(l: Bytes) {
    l != [] && DOT !in l
  }

  lemma {:induction false} SplitPlain(l: Bytes, rest: Bytes)
    requires DOT !in l
    ensures Split(l) == [l]
    ensures Split(l + [DOT] + rest) == [l] + Split(rest)
  {
    if l == [] {
      assert ([DOT] + rest)[1..] == rest && l + [DOT] + rest == [DOT] + rest;
    } else {
      SplitPlain(l[1..], rest);
      assert (l + [DOT] + rest)[1..] == l[1..] + [DOT] + rest;
      assert l == [l[0]] + l[1..];
    }
  }

  lemma {:induction false} SplitInvertsJoin(labels: seq<Bytes>)
    requires labels != [] && forall l | l in labels :: Plain(l)
    ensures Split(Join(labels)) == labels && TrimDot(Join(labels)) == Join(labels) && Join(labels) != []
  {
    assert labels[0] in labels;
    SplitPlain(labels[0], if |labels| > 1 then Join(labels[1..]) else []);
    if |labels| > 1 {
      SplitInvertsJoin(labels[1..]);
      var name, rest := Join(labels), Join(labels[1..]);
      assert name[|name| - 1] == rest[|rest| - 1];
      assert labels == [labels[0]] + labels[1..];
    } else {
      assert labels == [labels[0]];
    }
  }

  lemma ScanOneLabel(buf: Bytes, pos: nat, l: Bytes)
    requires 0 < |l| < COMPRESSED && pos + 1 + |l| <= |buf| && buf[pos..pos + 1 + |l|] == [|l|] + l
    ensures Scan(buf, pos) == WithLabel(l, Scan(buf, pos + 1 + |l|))
  {
    assert buf[pos] == buf[pos..pos + 1 + |l|][0];
    assert buf[pos + 1..pos + 1 + |l|] == buf[pos..pos + 1 + |l|][1..];
  }

  lemma ScanPrepended(before: Bytes, l: Bytes, rest: Bytes, after: Bytes, ls: seq<Bytes>, next: nat)
    requires 0 < |l| < COMPRESSED
    requires Scan((before + ([|l|] + l)) + rest + after, |before| + 1 + |l|) == Ends(ls, next)
    ensures Scan(before + (([|l|] + l) + rest) + after, |before|) == Ends([l] + ls, next)
  {
    Regroup(before, [|l|] + l, rest, after);
    ScanOneLabel(before + (([|l|] + l) + rest) + after, |before|, l);
  }

  lemma EncodeFirst(labels: seq<Bytes>)
    requires labels != [] && 0 < |labels[0]| < COMPRESSED
    ensures EncodeLabels(labels) == ([|labels[0]|] + labels[0]) + EncodeLabels(labels[1..])
  {
  }

  lemma ScanRoot(before: Bytes, after: Bytes)
    ensures Scan(before + [0] + after, |before|) == Ends([], |before| + 1)
  {
    assert (before + [0] + after)[|before|] == 0;
  }

  ghost predicate ScansTo(before: Bytes, encoded: Bytes, after: Bytes, labels: seq<Bytes>) {
    Scan(before + encoded + after, |before|) == Ends(labels, |before| + |encoded|)
  }

  lemma ScanLonger(before: Bytes, l: Bytes, encoded: Bytes, after: Bytes, labels: seq<Bytes>)
    requires 0 < |l| < COMPRESSED && ScansTo(before + ([|l|] + l), encoded, after, labels)
    ensures ScansTo(before, ([|l|] + l) + encoded, after, [l] + labels)
  {
    ScanPrepended(before, l, encoded, after, labels, |before| + 1 + |l| + |encoded|);
  }

  /** Parsing at the encoding of labels, in any surrounding bytes, finds just these labels. */
  lemma {:induction false} ScanEncoded(before: Bytes, labels: seq<Bytes>, after: Bytes)
    requires forall l | l in labels :: 0 < |l| < COMPRESSED
    ensures ScansTo(before, EncodeLabels(labels), after, labels)
    decreases |labels|
  {
    if labels == [] {
      ScanRoot(before, after);
    } else {
      var l, rest := labels[0], labels[1..];
      assert l in labels;
      EncodeFirst(labels);
      ScanEncoded(before + ([|l|] + l), rest, after);
      ScanLonger(before, l, EncodeLabels(rest), after, rest);
      assert labels == [l] + rest;
    }
  }

  lemma Regroup(a: Bytes, b: Bytes, c: Bytes, d: Bytes)
    ensures a + (b + c) + d == (a + b) + c + d
    ensures (a + (b + c) + d)[|a|..|a| + |b|] == b
  {
  }

  /** A name of non-empty, dot-free labels of at most 191 bytes, so of every length RFC 1035 allows, parses back from
      its encoding in any surrounding bytes, without following a pointer; so does the root. */
  lemma ParseInvertsEncode(before: Bytes, labels: seq<Bytes>, after: Bytes)
    requires forall l | l in labels :: Plain(l) && |l| <= 191
    ensures var name := Join(labels);
            var buf := before + EncodeName(name) + after;
            EndsWithin(buf, |before|, 0) &&
            ParseName(buf, |before|, 0) == Name(name, |before| + |EncodeName(name)|)
  {
    if labels == [] {
      assert EncodeName([]) == EncodeLabels([[]]) == [] + EncodeLabels([]);
      ScanEncoded(before, [], after);
    } else {
      SplitInvertsJoin(labels);
      ScanEncoded(before, labels, after);
    }
  }

  lemma ScanPointer(buf: Bytes, pos: nat)
    requires pos + 2 <= |buf| && buf[pos] >= COMPRESSED
    ensures !Scan(buf, pos).Bad? && Scan(buf, pos).next == pos + 2
  {
  }

  ghost predicate StopsEarly(before: Bytes, encoded: Bytes, after: Bytes) {
    var s := Scan(before + encoded + after, |before|);
    !s.Bad? && s.next < |before| + |encoded|
  }

  lemma StopsLater(before: Bytes, l: Bytes, encoded: Bytes, after: Bytes)
    requires 0 < |l| < COMPRESSED && StopsEarly(before + ([|l|] + l), encoded, after)
    ensures StopsEarly(before, ([|l|] + l) + encoded, after)
  {
    Regroup(before, [|l|] + l, encoded, after);
    ScanOneLabel(before + (([|l|] + l) + encoded) + after, |before|, l);
  }

  lemma StopsAtPointer(before: Bytes, l: Bytes, encoded: Bytes, after: Bytes)
    requires COMPRESSED <= |l| < 256
    ensures StopsEarly(before, ([|l|] + l) + encoded, after)
  {
    Regroup(before, [|l|] + l, encoded, after);
    var buf := before + (([|l|] + l) + encoded) + after;
    assert buf[|before|] == buf[|before|..|before| + 1 + |l|][0] == |l|;
    ScanPointer(buf, |before|);
  }

  /** A label of 192 to 255 bytes reads as a pointer, and the name ends before its encoding does. */
  lemma {:induction false} LongLabelEndsEarly(before: Bytes, labels: seq<Bytes>, after: Bytes, long: Bytes)
    requires forall l | l in labels :: 0 < |l| < 256
    requires long in labels && |long| >= COMPRESSED
    ensures StopsEarly(before, EncodeLabels(labels), after)
    decreases |labels|
  {
    var l, rest := labels[0], labels[1..];
    assert l in labels && labels == [l] + rest;
    var enc := EncodeLabels(rest);
    assert EncodeLabels(labels) == ([|l|] + l) + enc;
    if |l| < COMPRESSED {
      LongLabelEndsEarly(before + ([|l|] + l), rest, after, long);
      StopsLater(before, l, enc, after);
    } else {
      StopsAtPointer(before, l, enc, after);
    }
  }

  /** For non-empty, dot-free labels of at most 255 bytes, the name parses back from its encoding exactly when no
      label is longer than 191 bytes. */
  lemma ParseInvertsEncodeIff(before: Bytes, labels: seq<Bytes>, after: Bytes, depth: nat)
    requires forall l | l in labels :: Plain(l) && |l| < 256
    requires EndsWithin(before + EncodeName(Join(labels)) + after, |before|, depth)
    ensures var name := Join(labels);
            ParseName(before + EncodeName(name) + after, |before|, depth) == Name(name, |before| + |EncodeName(name)|)
            <==> forall l | l in labels :: |l| <= 191
  {
    var name := Join(labels);
    if forall l | l in labels :: |l| < COMPRESSED {
      ParseInvertsEncode(before, labels, after);
      MoreDepth(before + EncodeName(name) + after, |before|, 0, depth);
    } else {
      SplitInvertsJoin(labels);
      var long :| long in labels && |long| >= COMPRESSED;
      LongLabelEndsEarly(before, labels, after, long);
    }
  }

  // ---------------------------------------------------------------- names with pointers

  /** Labels as they stand in a packet, before what ends or continues the name. */
  function Texts(labels: seq<Bytes>): Bytes {
    if labels == [] then [] else ([|labels[0]| % 256] + labels[0]) + Texts(labels[1..])
  }

  predicate LabelsFit(labels: seq<Bytes>) {
    forall l | l in labels :: 0 < |l| < 192
  }

  ghost predicate StandsAt(buf: Bytes, pos: nat, text: Bytes) {
    pos + |text| <= |buf| && buf[pos..pos + |text|] == text
  }

  lemma StandsInPieces(buf: Bytes, pos: nat, x: Bytes, y: Bytes)
    requires StandsAt(buf, pos, x + y)
    ensures StandsAt(buf, pos, x) && StandsAt(buf, pos + |x|, y)
  {
    var n := |x + y|;
    assert buf[pos..pos + |x|] == buf[pos..pos + n][..|x|];
    assert buf[pos + |x|..pos + n] == buf[pos..pos + n][|x|..];
  }

  lemma PrependTwice(l: Bytes, rest: seq<Bytes>, s: Segment)
    ensures WithLabel(l, Prepend(rest, s)) == Prepend([l] + rest, s)
  {
    if !s.Bad? { assert [l] + (rest + s.labels) == [l] + rest + s.labels; }
  }

  lemma FirstText(buf: Bytes, pos: nat, l: Bytes, rest: seq<Bytes>)
    requires 0 < |l| < 192 && StandsAt(buf, pos, Texts([l] + rest))
    ensures StandsAt(buf, pos + 1 + |l|, Texts(rest)) && |Texts([l] + rest)| == 1 + |l| + |Texts(rest)|
    ensures Scan(buf, pos) == WithLabel(l, Scan(buf, pos + 1 + |l|))
  {
    StandsInPieces(buf, pos, [|l|] + l, Texts(rest));
    ScanOneLabel(buf, pos, l);
  }

  /** Wherever labels stand, scanning collects them and goes on behind them. */
  lemma {:induction false} ScanTexts(buf: Bytes, pos: nat, labels: seq<Bytes>)
    requires LabelsFit(labels) && StandsAt(buf, pos, Texts(labels))
    ensures Scan(buf, pos) == Prepend(labels, Scan(buf, pos + |Texts(labels)|))
    decreases |labels|
  {
    var end := Scan(buf, pos + |Texts(labels)|);
    if labels == [] {
      if !end.Bad? { assert [] + end.labels == end.labels; }
    } else {
      var l, rest := labels[0], labels[1..];
      assert l in labels && labels == [l] + rest;
      FirstText(buf, pos, l, rest);
      ScanTexts(buf, pos + 1 + |l|, rest);
      PrependTwice(l, rest, end);
    }
  }

  /** A name in pieces: each but the last is followed by a pointer to where the next one stands, the last by a zero. */
  datatype Piece = Piece(at: nat, labels: seq<Bytes>)

  ghost predicate LaidOut(buf: Bytes, pieces: seq<Piece>)
    requires pieces != []
    decreases |pieces|
  {
    var p := pieces[0];
    LabelsFit(p.labels) &&
    if |pieces| == 1 then StandsAt(buf, p.at, Texts(p.labels) + [0])
    else
      pieces[1].at < 0x4000 && StandsAt(buf, p.at, Texts(p.labels) + Big(0xC000 + pieces[1].at, 2)) &&
      LaidOut(buf, pieces[1..])
  }

  /** All labels, in the order of the pieces. */
  function AllLabels(pieces: seq<Piece>): seq<Bytes> {
    if pieces == [] then [] else pieces[0].labels + AllLabels(pieces[1..])
  }

  lemma ScanLast(buf: Bytes, at: nat, labels: seq<Bytes>)
    requires LabelsFit(labels) && StandsAt(buf, at, Texts(labels) + [0])
    ensures Scan(buf, at) == Ends(labels, at + |Texts(labels)| + 1)
  {
    StandsInPieces(buf, at, Texts(labels), [0]);
    ScanTexts(buf, at, labels);
    var next := at + |Texts(labels)|;
    assert buf[next] == buf[next..next + 1][0];
    assert labels + [] == labels;
  }

  lemma PointerStands(buf: Bytes, pos: nat, target: nat)
    requires target < 0x4000 && StandsAt(buf, pos, Big(0xC000 + target, 2))
    ensures Scan(buf, pos) == Jumps([], target, pos + 2)
  {
    var two := Big(0xC000 + target, 2);
    var n := 0xC000 + target;
    assert Big(n / 256, 1) == [n / 256 % 256] && two == Big(n / 256, 1) + [n % 256];
    assert buf[pos] == buf[pos..pos + 2][0] && buf[pos + 1] == buf[pos..pos + 2][1];
  }

  lemma ScanToPointer(buf: Bytes, at: nat, labels: seq<Bytes>, target: nat)
    requires LabelsFit(labels) && target < 0x4000 && StandsAt(buf, at, Texts(labels) + Big(0xC000 + target, 2))
    ensures Scan(buf, at) == Jumps(labels, target, at + |Texts(labels)| + 2)
  {
    StandsInPieces(buf, at, Texts(labels), Big(0xC000 + target, 2));
    ScanTexts(buf, at, labels);
    PointerStands(buf, at + |Texts(labels)|, target);
    assert labels + [] == labels;
  }

  lemma {:induction false} JoinAppends(labels: seq<Bytes>, x: Bytes, y: Bytes)
    ensures Join(labels + [x + y]) == Join(labels + [x]) + y
  {
    if labels == [] {
      assert labels + [x + y] == [x + y] && labels + [x] == [x];
    } else {
      JoinAppends(labels[1..], x, y);
      assert (labels + [x + y])[1..] == labels[1..] + [x + y] && (labels + [x])[1..] == labels[1..] + [x];
    }
  }

  /** A joined name as the last label: the same name, but for a dot before an empty one. */
  lemma {:induction false} JoinNests(labels: seq<Bytes>, more: seq<Bytes>)
    ensures Join(labels + [Join(more)]) == Join(labels + more) + if more == [] && labels != [] then [DOT] else []
  {
    if labels == [] {
      assert labels + [Join(more)] == [Join(more)] && labels + more == more;
    } else {
      JoinNests(labels[1..], more);
      assert (labels + [Join(more)])[1..] == labels[1..] + [Join(more)];
      assert (labels + more)[1..] == labels[1..] + more;
    }
  }

  /** A name that ends in a pointer to the root keeps a dot at the end. */
  function TrailingDot(pieces: seq<Piece>): Bytes
    requires pieces != []
  {
    if pieces[|pieces| - 1].labels == [] && AllLabels(pieces) != [] then [DOT] else []
  }

  lemma NameOfPieces(pieces: seq<Piece>)
    requires |pieces| > 1
    ensures var rest := pieces[1..];
            Join(pieces[0].labels + [Join(AllLabels(rest)) + TrailingDot(rest)]) ==
              Join(AllLabels(pieces)) + TrailingDot(pieces)
  {
    var labels, rest := pieces[0].labels, pieces[1..];
    JoinAppends(labels, Join(AllLabels(rest)), TrailingDot(rest));
    JoinNests(labels, AllLabels(rest));
    if AllLabels(rest) == [] { LastIsAmong(rest); }
  }

  lemma {:induction false} LastIsAmong(pieces: seq<Piece>)
    requires pieces != [] && AllLabels(pieces) == []
    ensures pieces[|pieces| - 1].labels == []
  {
    if |pieces| > 1 { LastIsAmong(pieces[1..]); }
  }

  /** Over any number of pointers the labels of all pieces are joined in order. */
  lemma {:induction false} PiecesParse(buf: Bytes, pieces: seq<Piece>)
    requires pieces != [] && LaidOut(buf, pieces)
    ensures var p, depth := pieces[0], |pieces| - 1;
            EndsWithin(buf, p.at, depth) &&
            ParseName(buf, p.at, depth) ==
              Name(Join(AllLabels(pieces)) + TrailingDot(pieces), p.at + |Texts(p.labels)| + if depth == 0 then 1 else 2)
    decreases |pieces|
  {
    var p, rest := pieces[0], pieces[1..];
    if |pieces| == 1 {
      ScanLast(buf, p.at, p.labels);
      assert p.labels + [] == p.labels;
    } else {
      ScanToPointer(buf, p.at, p.labels, rest[0].at);
      PiecesParse(buf, rest);
      NameOfPieces(pieces);
    }
  }

  /** A name in pieces parses to its labels, joined in order, if and only if it does not end in a pointer to the root
      behind a label. */
  lemma PiecesParseIff(buf: Bytes, pieces: seq<Piece>, depth: nat)
    requires pieces != [] && LaidOut(buf, pieces) && depth >= |pieces| - 1
    ensures EndsWithin(buf, pieces[0].at, depth)
    ensures var r := ParseName(buf, pieces[0].at, depth);
            r.Name? && (r.name == Join(AllLabels(pieces)) <==>
                        pieces[|pieces| - 1].labels != [] || forall p | p in pieces :: p.labels == [])
  {
    PiecesParse(buf, pieces);
    MoreDepth(buf, pieces[0].at, |pieces| - 1, depth);
    NoLabels(pieces);
  }

  lemma {:induction false} NoLabels(pieces: seq<Piece>)
    ensures AllLabels(pieces) == [] <==> forall p | p in pieces :: p.labels == []
  {
    if pieces != [] {
      NoLabels(pieces[1..]);
      assert pieces == [pieces[0]] + pieces[1..];
    }
  }

  // ---------------------------------------------------------------- questions and answers

  datatype Question = Question(name: Bytes, qtype: u16, end: nat) | NoQuestion

  function ParseQuestion(buf: Bytes, pos: nat, depth: nat): (q: Question)
    requires EndsWithin(buf, pos, depth)
    ensures q.Question? ==> pos < q.end - 4 && q.end <= |buf|
  {
    match ParseName(buf, pos, depth)
    case Malformed => NoQuestion
    case Name(name, next) =>
      if next + 4 > |buf| then NoQuestion else Question(name, Word(buf, next), next + 4)
  }

  lemma QuestionOf(buf: Bytes, pos: nat, depth: nat, name: Bytes, next: nat, qtype: u16)
    requires EndsWithin(buf, pos, depth) && ParseName(buf, pos, depth) == Name(name, next)
    requires next + 4 <= |buf| && buf[next..next + 2] == Big(qtype, 2)
    ensures ParseQuestion(buf, pos, depth) == Question(name, qtype, next + 4)
  {
    WordRoundTrip(buf, next, qtype);
  }

  lemma Follows(before: Bytes, name: Bytes, a: Bytes, b: Bytes, after: Bytes)
    ensures before + (name + a + b) + after == before + name + (a + b + after)
    ensures var buf, next := before + name + (a + b + after), |before| + |name|; StandsAt(buf, next, a)
  {
  }

  /** A question is read as it was laid out: the name, then its type, then its class, which is passed over. */
  lemma QuestionRoundTrip(before: Bytes, labels: seq<Bytes>, qtype: u16, qclass: u16, after: Bytes)
    requires forall l | l in labels :: Plain(l) && |l| < 192
    ensures var query := EncodeName(Join(labels)) + Big(qtype, 2) + Big(qclass, 2);
            EndsWithin(before + query + after, |before|, 0) &&
            ParseQuestion(before + query + after, |before|, 0) == Question(Join(labels), qtype, |before| + |query|)
  {
    var name, a, b := EncodeName(Join(labels)), Big(qtype, 2), Big(qclass, 2);
    Follows(before, name, a, b, after);
    ParseInvertsEncode(before, labels, a + b + after);
    QuestionOf(before + name + (a + b + after), |before|, 0, Join(labels), |before| + |name|, qtype);
  }

  /** Question and one answer record, whose name is a pointer to the question's. */
  function Answer(txID: u16, question: Bytes, rtype: u16, address: Bytes): Bytes {
    Big(txID, 2) + Big(0x8480, 2) + Big(1, 2) + Big(1, 2) + [0, 0, 0, 0] + question +
    Big(NAME_AT_QUESTION, 2) + Big(rtype, 2) + Big(1, 2) + Big(60, 4) + Big(|address| % 0x1_0000, 2) + address
  }

  /** Scanning reads nothing outside the segment. */
  lemma {:induction false} ScanIsLocal(buf: Bytes, other: Bytes, pos: nat)
    requires Scan(buf, pos).Ends? && Scan(buf, pos).next <= |buf|
    requires Scan(buf, pos).next <= |other|
    requires forall i | pos <= i < Scan(buf, pos).next :: other[i] == buf[i]
    ensures Scan(other, pos) == Scan(buf, pos)
    decreases |buf| - pos
  {
    if buf[pos] != 0 {
      var after := pos + 1 + buf[pos];
      ScanIsLocal(buf, other, after);
      assert other[pos + 1..after] == buf[pos + 1..after];
    }
  }

  lemma PointerBytes()
    ensures Big(NAME_AT_QUESTION, 2) == [0xC0, 0x0C]
  {
  }

  lemma AnswerLayout(txID: u16, question: Bytes, rtype: u16, address: Bytes)
    ensures var resp, end := Answer(txID, question, rtype, address), HEADER + |question|;
            end + 2 <= |resp| && resp[HEADER..end] == question && resp[end] == 0xC0 && resp[end + 1] == 0x0C
  {
    var head := Big(txID, 2) + Big(0x8480, 2) + Big(1, 2) + Big(1, 2) + [0, 0, 0, 0];
    PointerBytes();
    Parts(head, question, Big(NAME_AT_QUESTION, 2), Big(rtype, 2), Big(1, 2), Big(60, 4),
          Big(|address| % 0x1_0000, 2), address);
  }

  lemma WordWithin(x: Bytes, y: Bytes, z: Bytes, i: nat)
    requires i + 2 <= |y|
    ensures Word(x + y + z, |x| + i) == Word(y, i)
  {
    var all := x + y + z;
    assert all[|x| + i..|x| + i + 2] == y[i..i + 2];
  }

  /** Twelve bytes as six words, most significant byte first. */
  function Bytes12(a: u16, b: u16, c: u16, d: u16, e: u16, f: u16): Bytes {
    [a / 256, a % 256, b / 256, b % 256, c / 256, c % 256, d / 256, d % 256, e / 256, e % 256, f / 256, f % 256]
  }

  lemma SixWords(all: Bytes, a: u16, b: u16, c: u16, d: u16, e: u16, f: u16, rest: Bytes)
    requires all == Bytes12(a, b, c, d, e, f) + rest
    ensures |all| == 12 + |rest| && all[12..] == rest && Word(all, 0) == a && Word(all, 2) == b && Word(all, 4) == c
    ensures Word(all, 6) == d && Word(all, 8) == e && Word(all, 10) == f
  {
    WordValue(all, 0);
    WordValue(all, 2);
    WordValue(all, 4);
    WordValue(all, 6);
    WordValue(all, 8);
    WordValue(all, 10);
  }

  lemma TimeToLive()
    ensures Big(60, 4) == [0, 0, 0, 60]
  {
    assert Big(0, 1) == [0];
    assert Big(0, 3) == Big(0, 2) + [0];
  }

  lemma Header12(a: Bytes, b: Bytes, c: Bytes, txID: u16)
    requires a == [txID / 256, txID % 256] && b == [0x84, 0x80] && c == [0, 1]
    ensures a + b + c + c + [0, 0, 0, 0] == Bytes12(txID, 0x8480, 1, 1, 0, 0) + []
  {
  }

  lemma Record12(a: Bytes, b: Bytes, c: Bytes, d: Bytes, e: Bytes, rtype: u16, length: u16, address: Bytes)
    requires a == [0xC0, 0x0C] && b == [rtype / 256, rtype % 256] && c == [0, 1] && d == [0, 0, 0, 60]
    requires e == [length / 256, length % 256]
    ensures a + b + c + d + e + address == Bytes12(0xC00C, rtype, 1, 0, 60, length) + address
  {
  }

  lemma HeaderFields(hdr: Bytes, txID: u16)
    requires hdr == Big(txID, 2) + Big(0x8480, 2) + Big(1, 2) + Big(1, 2) + [0, 0, 0, 0]
    ensures hdr == Bytes12(txID, 0x8480, 1, 1, 0, 0) + []
  {
    BigTwo(txID);
    BigTwo(0x8480);
    BigTwo(1);
    Header12(Big(txID, 2), Big(0x8480, 2), Big(1, 2), txID);
  }

  lemma RecordFields(ans: Bytes, rtype: u16, length: u16, address: Bytes)
    requires ans == Big(NAME_AT_QUESTION, 2) + Big(rtype, 2) + Big(1, 2) + Big(60, 4) + Big(length, 2) + address
    ensures ans == Bytes12(0xC00C, rtype, 1, 0, 60, length) + address
  {
    PointerBytes();
    BigTwo(rtype);
    BigTwo(1);
    TimeToLive();
    BigTwo(length);
    Record12(Big(NAME_AT_QUESTION, 2), Big(rtype, 2), Big(1, 2), Big(60, 4), Big(length, 2), rtype, length, address);
  }

  /** What a client reads in a response: its own transaction id, an authoritative answer to one question, and one record
      of that type in the internet class, for a minute, with the address. */
  lemma AnswerFields(txID: u16, question: Bytes, rtype: u16, address: Bytes)
    requires |address| < 0x1_0000
    ensures var resp, at := Answer(txID, question, rtype, address), 12 + |question|;
            |resp| == at + 12 + |address| && resp[12..at] == question && resp[at + 12..] == address &&
            Word(resp, 0) == txID && Word(resp, 2) == 0x8480 && Word(resp, 4) == 1 && Word(resp, 6) == 1 &&
            Word(resp, at + 2) == rtype && Word(resp, at + 4) == 1 &&
            Word(resp, at + 6) == 0 && Word(resp, at + 8) == 60 && Word(resp, at + 10) == |address|
  {
    var hdr := Big(txID, 2) + Big(0x8480, 2) + Big(1, 2) + Big(1, 2) + [0, 0, 0, 0];
    var ans := Big(NAME_AT_QUESTION, 2) + Big(rtype, 2) + Big(1, 2) + Big(60, 4) +
               Big(|address| % 0x1_0000, 2) + address;
    AnswerParts(hdr, question, ans, txID, rtype, address);
    HeaderFields(hdr, txID);
    SixWords(hdr, txID, 0x8480, 1, 1, 0, 0, []);
    RecordFields(ans, rtype, |address|, address);
    SixWords(ans, 0xC00C, rtype, 1, 0, 60, |address|, address);
    AllFields(hdr, question, ans);
  }

  lemma AllFields(hdr: Bytes, question: Bytes, ans: Bytes)
    requires |hdr| == 12 && |ans| >= 12
    ensures var all, at := hdr + question + ans, 12 + |question|;
            |all| == at + |ans| && all[12..at] == question && all[at + 12..] == ans[12..] &&
            (forall i | 0 <= i <= 10 :: Word(all, i) == Word(hdr, i)) &&
            (forall i | 0 <= i <= 10 :: Word(all, at + i) == Word(ans, i))
  {
    var all, at := hdr + question + ans, 12 + |question|;
    forall i | 0 <= i <= 10 ensures Word(all, i) == Word(hdr, i) && Word(all, at + i) == Word(ans, i) {
      WordWithin([], hdr, question + ans, i);
      assert [] + hdr + (question + ans) == all;
      WordWithin(hdr + question, ans, [], i);
      assert (hdr + question) + ans + [] == all;
    }
  }

  lemma Parts(head: Bytes, question: Bytes, name: Bytes, a: Bytes, b: Bytes, c: Bytes, d: Bytes, e: Bytes)
    requires |name| == 2
    ensures var all, end := head + question + name + a + b + c + d + e, |head| + |question|;
            end + 2 <= |all| && all[|head|..end] == question && all[end] == name[0] && all[end + 1] == name[1]
  {
    Front(head + question + name, a, b, c, d, e);
    var all, front := head + question + name + a + b + c + d + e, head + question + name;
    assert all[|head|..|head| + |question|] == front[|head|..|head| + |question|];
  }

  lemma Front(front: Bytes, a: Bytes, b: Bytes, c: Bytes, d: Bytes, e: Bytes)
    ensures var all := front + a + b + c + d + e;
            |all| >= |front| && forall i | 0 <= i < |front| :: all[i] == front[i]
  {
  }

  /** For a pointer-free question, both the question's name and the answer's parse in the response to the name that
      was asked for. */
  lemma AnswerNamesTheQuestion(query: Bytes, depth: nat, txID: u16, rtype: u16, address: Bytes)
    requires EndsWithin(query, HEADER, depth) && ParseQuestion(query, HEADER, depth).Question?
    requires Scan(query, HEADER).Ends?
    ensures var q := ParseQuestion(query, HEADER, depth);
            var resp := Answer(txID, query[HEADER..q.end], rtype, address);
            EndsWithin(resp, HEADER, 0) && ParseName(resp, HEADER, 0) == Name(q.name, q.end - 4) &&
            EndsWithin(resp, q.end, 1) && ParseName(resp, q.end, 1) == Name(q.name, q.end + 2)
  {
    var q := ParseQuestion(query, HEADER, depth);
    var question := query[HEADER..q.end];
    var resp := Answer(txID, question, rtype, address);
    AnswerLayout(txID, question, rtype, address);
    SameQuestion(query, resp, q.end);
    PointerToQuestion(resp, q.end);
  }

  lemma SameQuestion(query: Bytes, resp: Bytes, end: nat)
    requires Scan(query, HEADER).Ends? && Scan(query, HEADER).next <= end <= |query| && end <= |resp|
    requires resp[HEADER..end] == query[HEADER..end]
    ensures Scan(resp, HEADER) == Scan(query, HEADER)
  {
    forall i | HEADER <= i < end ensures resp[i] == query[i] {
      assert resp[i] == resp[HEADER..end][i - HEADER];
    }
    ScanIsLocal(query, resp, HEADER);
  }

  lemma PointerToQuestion(resp: Bytes, at: nat)
    requires at + 2 <= |resp| && resp[at] == 0xC0 && resp[at + 1] == 0x0C && Scan(resp, HEADER).Ends?
    ensures EndsWithin(resp, HEADER, 0) && EndsWithin(resp, at, 1)
    ensures ParseName(resp, at, 1) == Name(Join(Scan(resp, HEADER).labels), at + 2)
  {
    assert Scan(resp, at) == Jumps([], HEADER, at + 2);
    assert [] + [Join(Scan(resp, HEADER).labels)] == [Join(Scan(resp, HEADER).labels)];
  }

  // ---------------------------------------------------------------- the loops

  /** What the loop has collected so far, before the rest of the segment. */
  function Prepend(parts: seq<Bytes>, s: Segment): Segment {
    if s.Bad? then Bad else s.(labels := parts + s.labels)
  }

  lemma LoopEnds(buf: Bytes, start: nat, parts: seq<Bytes>, pos: nat)
    requires Prepend(parts, Scan(buf, pos)) == Scan(buf, start) && pos < |buf| && buf[pos] == 0
    ensures Scan(buf, start) == Ends(parts, pos + 1)
  {
    assert parts + [] == parts;
  }

  lemma LoopJumps(buf: Bytes, start: nat, parts: seq<Bytes>, pos: nat)
    requires Prepend(parts, Scan(buf, pos)) == Scan(buf, start) && pos + 2 <= |buf| && buf[pos] >= COMPRESSED
    ensures Scan(buf, start) == Jumps(parts, Target(buf[pos], buf[pos + 1]), pos + 2)
  {
    assert parts + [] == parts;
  }

  lemma LoopGoesOn(buf: Bytes, start: nat, parts: seq<Bytes>, pos: nat, next: nat)
    requires Prepend(parts, Scan(buf, pos)) == Scan(buf, start)
    requires pos < next <= |buf| && 0 < buf[pos] < COMPRESSED && next == pos + 1 + buf[pos]
    ensures Prepend(parts + [buf[pos + 1..next]], Scan(buf, next)) == Scan(buf, start)
  {
    var later, part := Scan(buf, next), buf[pos + 1..next];
    if !later.Bad? { assert parts + ([part] + later.labels) == (parts + [part]) + later.labels; }
  }

  method ReadName(buf: Bytes, start: nat, ghost depth: nat) returns (r: Parsed)
    requires EndsWithin(buf, start, depth)
    ensures r == ParseName(buf, start, depth)
    decreases depth
  {
    var parts: seq<Bytes>, pos := [], start;
    while true
      invariant Prepend(parts, Scan(buf, pos)) == Scan(buf, start)
      decreases |buf| - pos
    {
      if pos >= |buf| { return Malformed; }
      var length := buf[pos];
      if length == 0 {
        LoopEnds(buf, start, parts, pos);
        return Name(Join(parts), pos + 1);
      }
      if length >= COMPRESSED {
        if pos + 2 > |buf| { return Malformed; }
        LoopJumps(buf, start, parts, pos);
        var rest := ReadName(buf, Target(buf[pos], buf[pos + 1]), depth - 1);
        return if rest.Malformed? then Malformed else Name(Join(parts + [rest.name]), pos + 2);
      }
      var next := pos + 1 + length;
      if next > |buf| { return Malformed; }
      LoopGoesOn(buf, start, parts, pos, next);
      parts, pos := parts + [buf[pos + 1..next]], next;
    }
  }

  method WriteName(name: Bytes) returns (buf: Bytes)
    ensures buf == EncodeName(name)
  {
    buf := [];
    var labels := Split(TrimDot(name));
    var i := 0;
    while i < |labels|
      invariant i <= |labels| && buf + EncodeLabels(labels[i..]) == EncodeLabels(labels)
    {
      var l := labels[i];
      ghost var rest := EncodeLabels(labels[i + 1..]);
      if l != [] {
        assert buf + (([|l| % 256] + l) + rest) == buf + [|l| % 256] + l + rest;
        buf := buf + [|l| % 256] + l;
      }
      i := i + 1;
    }
    buf := buf + [0];
  }

  function Zeros(n: nat): (z: Bytes)
    ensures |z| == n && forall i | 0 <= i < n :: z[i] == 0
  {
    seq(n, i => 0)
  }

  method BuildHeader(txID: u16) returns (hdr: array<u8>)
    ensures hdr[..] == Big(txID, 2) + Big(0x8480, 2) + Big(1, 2) + Big(1, 2) + [0, 0, 0, 0]
  {
    hdr := new u8[12](i => 0);
    ghost var a, b, c := Big(txID, 2), Big(0x8480, 2), Big(1, 2);
    PutBig(hdr, 0, txID, 2);
    assert hdr[..] == a + Zeros(10);
    PutBig(hdr, 2, 0x8480, 2);
    assert hdr[..] == a + b + Zeros(8);
    PutBig(hdr, 4, 1, 2);
    assert hdr[..] == a + b + c + Zeros(6);
    PutBig(hdr, 6, 1, 2);
    assert hdr[..] == a + b + c + c + Zeros(4);
  }

  method BuildRecord(rtype: u16, address: Bytes) returns (ans: array<u8>)
    ensures ans[..] == Big(NAME_AT_QUESTION, 2) + Big(rtype, 2) + Big(1, 2) + Big(60, 4) +
                       Big(|address| % 0x1_0000, 2) + address
  {
    ghost var a, b, c, d, e :=
      Big(NAME_AT_QUESTION, 2), Big(rtype, 2), Big(1, 2), Big(60, 4), Big(|address| % 0x1_0000, 2);
    ans := new u8[12 + |address|](i => 0);
    PutBig(ans, 0, NAME_AT_QUESTION, 2);
    assert ans[..2] == a;
    PutBig(ans, 2, rtype, 2);
    assert ans[..4] == a + b;
    PutBig(ans, 4, 1, 2);
    assert ans[..6] == a + b + c;
    PutBig(ans, 6, 60, 4);
    assert ans[..10] == a + b + c + d;
    PutBig(ans, 10, |address| % 0x1_0000, 2);
    assert ans[..12] == a + b + c + d + e;
    CopyAt(ans, 12, address);
  }

  method BuildAnswer(txID: u16, question: Bytes, rtype: u16, address: Bytes) returns (resp: Bytes)
    ensures resp == Answer(txID, question, rtype, address)
  {
    var hdr := BuildHeader(txID);
    var ans := BuildRecord(rtype, address);
    resp := hdr[..] + question + ans[..];
    AnswerParts(hdr[..], question, ans[..], txID, rtype, address);
  }

  lemma AnswerParts(hdr: Bytes, question: Bytes, ans: Bytes, txID: u16, rtype: u16, address: Bytes)
    requires hdr == Big(txID, 2) + Big(0x8480, 2) + Big(1, 2) + Big(1, 2) + [0, 0, 0, 0]
    requires ans == Big(NAME_AT_QUESTION, 2) + Big(rtype, 2) + Big(1, 2) + Big(60, 4) +
                    Big(|address| % 0x1_0000, 2) + address
    ensures hdr + question + ans == Answer(txID, question, rtype, address)
  {
  }
}
