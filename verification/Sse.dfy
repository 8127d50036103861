/** Server-sent event frames on the wire: the printer of the trace handler, and the splitter with
    which the portal takes the carrier's stream apart again, one read at a time. */
module Sse {
  type Byte = b: int | 0 <= b < 256
  type Bytes = seq<Byte>

  const NL: Byte := 10
  const BREAK: Bytes := [10, 10]
  /** "data: " */
  const PREFIX: Bytes := [100, 97, 116, 97, 58, 32]

  // ---- A byte taken for a code point ----

  /** `string(b)` in Go is the UTF-8 form of the code point b. */
  function Encode1(b: Byte): Bytes {
    if b < 128 then [b] else [192 + b / 64, 128 + b % 64]
  }

  function Encode(s: Bytes): Bytes {
    if s == [] then [] else Encode(s[..|s| - 1]) + Encode1(s[|s| - 1])
  }

  lemma {:induction false} EncodeConcat(a: Bytes, b: Bytes)
    ensures Encode(a + b) == Encode(a) + Encode(b)
  {
    hide Encode, Encode1;
    if b == [] {
      EncodeNothing();
      assert a + b == a;
    } else {
      var init, last := b[..|b| - 1], b[|b| - 1];
      EncodeConcat(a, init);
      EncodeAppend(init, last);
      EncodeAppend(a + init, last);
      assert b == init + [last] && a + b == a + init + [last];
    }
  }

  lemma EncodeNothing()
    ensures Encode([]) == []
  {}

  lemma EncodeAppend(s: Bytes, b: Byte)
    ensures Encode(s + [b]) == Encode(s) + Encode1(b)
  {
    hide Encode1;
    assert (s + [b])[..|s|] == s;
  }

  /** The encoding loses nothing. */
  lemma {:induction false} EncodeInjective(a: Bytes, b: Bytes)
    requires Encode(a) == Encode(b)
    ensures a == b
  {
    hide Encode1;
    EncodeIsIdentityIffAscii(a);
    EncodeIsIdentityIffAscii(b);
    if a != [] && b != [] {
      SameLast(Encode(a[..|a| - 1]), a[|a| - 1], Encode(b[..|b| - 1]), b[|b| - 1]);
      EncodeInjective(a[..|a| - 1], b[..|b| - 1]);
    }
  }

  /** The last byte of an encoding tells whether it stands alone. */
  lemma SameLast(p: Bytes, x: Byte, q: Bytes, y: Byte)
    requires p + Encode1(x) == q + Encode1(y)
    ensures x == y && p == q
  {
    hide Encode1;
    LastBytes(p, x);
    LastBytes(q, y);
    SameByte(x, y);
    var n := if x < 128 then 1 else 2;
    assert p == (p + Encode1(x))[..|p + Encode1(x)| - n] && q == (q + Encode1(y))[..|q + Encode1(y)| - n];
  }

  lemma LastBytes(p: Bytes, x: Byte)
    ensures var s := p + Encode1(x);
      if x < 128 then |s| == |p| + 1 && s[|s| - 1] == x
      else |s| == |p| + 2 && s[|s| - 2] == 192 + x / 64 && s[|s| - 1] == 128 + x % 64
  {}

  lemma SameByte(x: Byte, y: Byte)
    ensures x / 64 == y / 64 && x % 64 == y % 64 ==> x == y
  {}

  /** What a decoder makes of bytes, by the two shortest forms of section 3 of RFC 3629: a byte below 128
      stands for itself, and a lead byte 110xxxxx with a continuation byte 10yyyyyy for xxxxxyyyyyy. */
  function Decode(s: Bytes): seq<int> {
    if s == [] then []
    else if s[0] < 128 then [s[0]] + Decode(s[1..])
    else if |s| >= 2 && 192 <= s[0] < 224 && 128 <= s[1] < 192
    then [(s[0] - 192) * 64 + (s[1] - 128)] + Decode(s[2..])
    else [-1] + Decode(s[1..])
  }

  /** The re-encoded text is UTF-8, and its code points are the bytes that went in. */
  lemma {:induction false} DecodesToTheBytes(s: Bytes)
    ensures Decode(Encode(s)) == s
  {
    if s == [] {
      EncodeNothing();
    } else {
      var first, rest := s[0], s[1..];
      DecodesToTheBytes(rest);
      EncodeConcat([first], rest);
      EncodeOne(first);
      DecodeFirst(first, Encode(rest));
      assert s == [first] + rest;
    }
  }

  lemma EncodeOne(b: Byte)
    ensures Encode([b]) == Encode1(b)
  {
    EncodeAppend([], b);
    assert [] + [b] == [b] && [] + Encode1(b) == Encode1(b);
  }

  lemma DecodeFirst(b: Byte, rest: Bytes)
    ensures Decode(Encode1(b) + rest) == [b] + Decode(rest)
  {
    var s := Encode1(b) + rest;
    if b < 128 { assert s[1..] == rest; } else { assert s[2..] == rest; }
  }

  predicate Ascii(s: Bytes) {
    forall i | 0 <= i < |s| :: s[i] < 128
  }

  /** It lengthens exactly what is not ASCII, and is the identity on the rest. */
  lemma {:induction false} EncodeIsIdentityIffAscii(s: Bytes)
    ensures |Encode(s)| >= |s|
    ensures Encode(s) == s <==> Ascii(s)
    ensures |Encode(s)| == |s| <==> Ascii(s)
  {
    if s != [] {
      var init, last := s[..|s| - 1], s[|s| - 1];
      EncodeIsIdentityIffAscii(init);
      assert s == init + [last];
      assert Ascii(s) <==> Ascii(init) && last < 128;
    }
  }

  // ---- The splitter ----

  /** A newline pair starts at `i`. */
  predicate BreakAt(s: Bytes, i: nat) {
    i + 1 < |s| && s[i] == NL && s[i + 1] == NL
  }

  predicate TripleAt(s: Bytes, i: nat) {
    i + 2 < |s| && s[i] == NL && s[i + 1] == NL && s[i + 2] == NL
  }

  ghost predicate HasTripleNewline(s: Bytes) {
    exists i: nat :: TripleAt(s, i)
  }

  /** Where the first newline pair starts; the length if there is none. */
  function FirstBreak(s: Bytes): (p: nat)
    ensures p <= |s| && (p < |s| ==> BreakAt(s, p))
    ensures forall i: nat | i < p :: !BreakAt(s, i)
  {
    if |s| < 2 then |s|
    else if BreakAt(s, 0) then 0
    else
      assert forall i: nat :: BreakAt(s, i + 1) == BreakAt(s[1..], i);
      var p := FirstBreak(s[1..]);
      assert forall i: nat | 0 < i < p + 1 :: BreakAt(s, i) == BreakAt(s[1..], i - 1);
      p + 1
  }

  /** The text between newline pairs, and what is left after the last pair if anything is. */
  function Pieces(s: Bytes): seq<Bytes>
    decreases |s|
  {
    var p := FirstBreak(s);
    if p == |s| then if s == [] then [] else [Encode(s)]
    else [Encode(s[..p])] + Pieces(s[p + 2..])
  }

  /** What Go does on a slice bound out of range. */
  datatype Outcome<+T> = Ok(value: T) | Panic

  /** The loop takes a byte at a time and cuts off the two newlines of a pair; after a pair it looks
      back at the pair's own newline, which is what a third newline runs into. */
  method SplitOnDoubleNewline(s: Bytes) returns (r: Outcome<seq<Bytes>>)
    ensures r.Panic? <==> HasTripleNewline(s)
    ensures r.Ok? ==> r.value == Pieces(s)
  {
    hide Scanned, Pieces, Encode;
    var res: seq<Bytes>, cur: Bytes := [], [];
    var i := 0;
    ghost var from := 0;
    ScanStart(s);
    while i < |s|
      invariant 0 <= from <= i <= |s| && Scanned(s, from, i)
      invariant cur == Encode(s[from..i])
      invariant res + Pieces(s[from..]) == Pieces(s)
    {
      ScanStep(s, from, i);
      EncodeNext(s, from, i);
      cur := cur + Encode1(s[i]);
      if i >= 1 && s[i - 1] == NL && s[i] == NL {
        if |cur| < 2 { return Panic; }
        CutOff(s, from, i);
        Regroup(res, Encode(s[from..i - 1]), Pieces(s[i + 1..]));
        assert cur[..|cur| - 2] == Encode(s[from..i - 1]);
        res := res + [cur[..|cur| - 2]];
        cur := [];
        from := i + 1;
        assert s[from..i + 1] == [];
      }
      i := i + 1;
    }
    ScanEnd(s, from);
    assert s[from..i] == s[from..];
    if cur != [] {
      res := res + [cur];
    }
    r := Ok(res);
  }

  lemma Regroup(res: seq<Bytes>, piece: Bytes, rest: seq<Bytes>)
    ensures res + [piece] + rest == res + ([piece] + rest)
  {}

  lemma EncodeNext(s: Bytes, from: nat, i: nat)
    requires from <= i < |s|
    ensures Encode(s[from..i + 1]) == Encode(s[from..i]) + Encode1(s[i])
    ensures |Encode(s[from..i + 1])| >= i + 1 - from
    ensures from == i && s[i] == NL ==> |Encode(s[from..i + 1])| == 1
  {
    assert s[from..i + 1][..i - from] == s[from..i];
    EncodeIsIdentityIffAscii(s[from..i + 1]);
  }

  /** Of the first `i` bytes: a pair ends at `from`, none starts from there on, and no pair overlaps another. */
  ghost predicate Scanned(s: Bytes, from: nat, i: nat)
    requires from <= i <= |s|
  {
    && (from > 0 ==> from >= 2 && BreakAt(s, from - 2))
    && (from > 0 && i > from ==> s[from] != NL)
    && (forall j: nat | from <= j && j + 1 < i :: !BreakAt(s, j))
    && (forall j: nat | j + 2 < i :: !TripleAt(s, j))
  }

  lemma ScanStart(s: Bytes)
    ensures Scanned(s, 0, 0) && Encode([]) == []
  {}

  lemma ScanStep(s: Bytes, from: nat, i: nat)
    requires from <= i < |s| && Scanned(s, from, i)
    ensures if i >= 1 && s[i - 1] == NL && s[i] == NL then
              (if from == i then HasTripleNewline(s) else Scanned(s, i + 1, i + 1))
            else Scanned(s, from, i + 1)
  {
    if i >= 1 && s[i - 1] == NL && s[i] == NL {
      assert BreakAt(s, i - 1);
      assert i >= 2 && TripleAt(s, i - 2) ==> BreakAt(s, i - 2);
      if from == i { assert TripleAt(s, i - 2); }
    }
  }

  lemma ScanEnd(s: Bytes, from: nat)
    requires from <= |s| && Scanned(s, from, |s|)
    ensures !HasTripleNewline(s)
    ensures Pieces(s[from..]) == if s[from..] == [] then [] else [Encode(s[from..])]
    ensures Encode(s[from..]) == [] <==> s[from..] == []
  {
    var t := s[from..];
    assert forall j: nat :: BreakAt(t, j) == BreakAt(s, from + j);
    EncodeIsIdentityIffAscii(t);
  }

  lemma CutOff(s: Bytes, from: nat, i: nat)
    requires from < i < |s| && BreakAt(s, i - 1) && Scanned(s, from, i)
    ensures Pieces(s[from..]) == [Encode(s[from..i - 1])] + Pieces(s[i + 1..])
    ensures Encode(s[from..i + 1]) == Encode(s[from..i - 1]) + BREAK
  {
    hide Encode, Pieces, FirstBreak;
    var t := s[from..];
    var p := i - 1 - from;
    assert BreakAt(t, p);
    forall j: nat | j < p ensures !BreakAt(t, j) {
      assert !BreakAt(s, from + j);
    }
    FirstBreakIs(t, p);
    assert t[..p] == s[from..i - 1] && t[p + 2..] == s[i + 1..];
    assert s[from..i + 1] == s[from..i - 1] + BREAK;
    EncodeConcat(s[from..i - 1], BREAK);
    EncodeIsIdentityIffAscii(BREAK);
  }

  lemma FirstBreakIs(s: Bytes, p: nat)
    requires BreakAt(s, p) && forall j: nat | j < p :: !BreakAt(s, j)
    ensures FirstBreak(s) == p
    ensures Pieces(s) == [Encode(s[..p])] + Pieces(s[p + 2..])
  {
    hide Encode;
  }

  // ---- Frames ----

  /** What a frame may carry on its one data line. */
  predicate IsBody(b: Bytes) {
    b != [] && NL !in b
  }

  predicate Bodies(bs: seq<Bytes>) {
    forall i | 0 <= i < |bs| :: IsBody(bs[i])
  }

  function Frame(b: Bytes): Bytes {
    PREFIX + b + BREAK
  }

  /** The format on the wire, by section 9.2.6 of the HTML Living Standard: a data line, and an empty one. */
  lemma FrameFormat(b: Bytes)
    ensures var text := "data: ";
      && |Frame(b)| == |text| + |b| + 2
      && (forall i | 0 <= i < |text| :: Frame(b)[i] == text[i] as int)
      && Frame(b)[|text|..|text| + |b|] == b
      && Frame(b)[|text| + |b|] == Frame(b)[|text| + |b| + 1] == '\n' as int
  {
    var text := "data: ";
    assert text[0] as int == 100 && text[1] as int == 97 && text[2] as int == 116;
    assert text[3] as int == 97 && text[4] as int == 58 && text[5] as int == 32;
  }

  function Print(bs: seq<Bytes>): Bytes {
    if bs == [] then [] else Frame(bs[0]) + Print(bs[1..])
  }

  function EncodeAll(bs: seq<Bytes>): seq<Bytes> {
    seq(|bs|, i requires 0 <= i < |bs| => Encode(bs[i]))
  }

  lemma EncodeAllConcat(a: seq<Bytes>, b: seq<Bytes>)
    ensures EncodeAll(a + b) == EncodeAll(a) + EncodeAll(b)
  {
    hide Encode;
  }

  /** The trace handler's loop: one frame per event, written in three parts. */
  method WriteFrames(bs: seq<Bytes>) returns (w: Bytes)
    ensures w == Print(bs)
  {
    w := [];
    for i := 0 to |bs|
      invariant w + Print(bs[i..]) == Print(bs)
    {
      ghost var was := w;
      assert Print(bs[i..]) == Frame(bs[i]) + Print(bs[i + 1..]);
      w := w + PREFIX;
      w := w + bs[i];
      w := w + BREAK;
      assert w == was + Frame(bs[i]);
    }
  }

  predicate IsData(piece: Bytes) {
    |piece| > 6 && piece[..6] == PREFIX
  }

  /** The data of the pieces that start with the prefix and have something after it. */
  function DataOf(pieces: seq<Bytes>): seq<Bytes> {
    if pieces == [] then [] else
    (if IsData(pieces[0]) then [pieces[0][6..]] else []) + DataOf(pieces[1..])
  }

  function Frames(s: Bytes): seq<Bytes> {
    DataOf(Pieces(s))
  }

  method SplitFrames(s: Bytes) returns (r: Outcome<seq<Bytes>>)
    ensures r.Panic? <==> HasTripleNewline(s)
    ensures r.Ok? ==> r.value == Frames(s)
  {
    hide Pieces, DataOf;
    var pieces := SplitOnDoubleNewline(s);
    if pieces.Panic? { return Panic; }
    var out: seq<Bytes> := [];
    DataOfNone();
    for i := 0 to |pieces.value|
      invariant out + DataOf(pieces.value[i..]) == DataOf(pieces.value)
    {
      var chunk := pieces.value[i];
      assert pieces.value[i..] == [chunk] + pieces.value[i + 1..];
      DataOfConcat(chunk, pieces.value[i + 1..]);
      if |chunk| > 6 && chunk[..6] == PREFIX {
        out := out + [chunk[6..]];
      }
    }
    r := Ok(out);
  }

  /** A line without newlines, ended by a newline pair, is the first piece. */
  lemma FirstPiece(line: Bytes, rest: Bytes)
    requires NL !in line
    ensures Pieces(line + BREAK + rest) == [Encode(line)] + Pieces(rest)
  {
    hide Encode;
    var s := line + BREAK + rest;
    assert forall i: nat | i < |line| :: s[i] == line[i] && line[i] in line;
    FirstBreakIs(s, |line|);
    assert s[..|line|] == line && s[|line| + 2..] == rest;
  }

  /** Text without a newline pair is the only piece. */
  lemma OnlyPiece(s: Bytes)
    requires s != [] && forall i: nat :: !BreakAt(s, i)
    ensures Pieces(s) == [Encode(s)]
  {}

  lemma DataLine(b: Bytes)
    requires b != []
    ensures Encode(PREFIX + b) == PREFIX + Encode(b) && IsData(Encode(PREFIX + b))
    ensures DataOf([Encode(PREFIX + b)]) == [Encode(b)]
  {
    hide Encode, DataOf;
    EncodeConcat(PREFIX, b);
    EncodeIsIdentityIffAscii(PREFIX);
    EncodeIsIdentityIffAscii(b);
    assert Encode(PREFIX + b)[..6] == PREFIX && Encode(PREFIX + b)[6..] == Encode(b);
    DataOfConcat(Encode(PREFIX + b), []);
  }

  lemma DataOfConcat(p: Bytes, rest: seq<Bytes>)
    ensures DataOf([p] + rest) == DataOf([p]) + DataOf(rest)
    ensures DataOf([p]) == if IsData(p) then [p[6..]] else []
  {
    assert ([p] + rest)[1..] == rest && [p][1..] == [];
  }

  lemma DataOfNone()
    ensures DataOf([]) == []
  {}

  /** A whole frame in front yields its body and leaves the rest as it is. */
  lemma FramesOfFrame(b: Bytes, rest: Bytes)
    requires IsBody(b)
    ensures Frames(Frame(b) + rest) == [Encode(b)] + Frames(rest)
  {
    var line := PREFIX + b;
    assert Frame(b) + rest == line + BREAK + rest;
    FirstPiece(line, rest);
    DataLine(b);
    DataOfConcat(Encode(line), Pieces(rest));
  }

  lemma {:induction false} FramesOfPrint(bs: seq<Bytes>, rest: Bytes)
    requires Bodies(bs)
    ensures Frames(Print(bs) + rest) == EncodeAll(bs) + Frames(rest)
  {
    if bs == [] {
      assert Print(bs) + rest == rest;
    } else {
      assert Print(bs) + rest == Frame(bs[0]) + (Print(bs[1..]) + rest);
      FramesOfFrame(bs[0], Print(bs[1..]) + rest);
      FramesOfPrint(bs[1..], rest);
      assert EncodeAll(bs) == [Encode(bs[0])] + EncodeAll(bs[1..]);
    }
  }

  /** The round trip: splitting what was printed gives each body back, byte by byte re-encoded. */
  lemma RoundTrip(bs: seq<Bytes>)
    requires Bodies(bs)
    ensures Frames(Print(bs)) == EncodeAll(bs) && !HasTripleNewline(Print(bs))
    ensures (forall i | 0 <= i < |bs| :: Ascii(bs[i])) <==> Frames(Print(bs)) == bs
  {
    FramesOfPrint(bs, []);
    assert Print(bs) + [] == Print(bs);
    PrintHasNoTriple(bs);
    forall i | 0 <= i < |bs| ensures Ascii(bs[i]) <==> EncodeAll(bs)[i] == bs[i] {
      EncodeIsIdentityIffAscii(bs[i]);
    }
  }

  lemma {:induction false} PrintHasNoTriple(bs: seq<Bytes>)
    requires Bodies(bs)
    ensures !HasTripleNewline(Print(bs)) && (bs != [] ==> Print(bs)[0] != NL)
  {
    if bs != [] {
      PrintHasNoTriple(bs[1..]);
      var s, rest := Print(bs), Print(bs[1..]);
      var line := PREFIX + bs[0];
      assert s == line + BREAK + rest;
      forall i: nat ensures !TripleAt(s, i) {
        if i < |line| {
          assert s[i] == line[i] && line[i] in line;
        } else if i >= |line| + 2 {
          assert TripleAt(s, i) == TripleAt(rest, i - |line| - 2);
        }
      }
    }
  }

  // ---- Re-joining ----

  function Join(pieces: seq<Bytes>): Bytes {
    if pieces == [] then [] else pieces[0] + BREAK + Join(pieces[1..])
  }

  /** The pieces with their separators are the input, but for a missing last separator. */
  lemma {:induction false} PiecesRejoin(s: Bytes)
    requires !HasTripleNewline(s)
    ensures var ended := s == [] || (|s| >= 2 && BreakAt(s, |s| - 2));
      Join(Pieces(s)) == Encode(s) + if ended then [] else BREAK
    decreases |s|
  {
    hide Encode;
    ScanStart(s);
    var p := FirstBreak(s);
    if p == |s| {
      if s != [] { assert [Encode(s)][1..] == []; }
    } else {
      var rest := s[p + 2..];
      assert forall i: nat :: TripleAt(rest, i) ==> TripleAt(s, p + 2 + i);
      PiecesRejoin(rest);
      JoinFirst(s, p);
      if |rest| == 1 { assert !TripleAt(s, p); }
      EncodeTail(s, p);
      assert Encode(s[..p]) + BREAK + (Encode(rest) + BREAK) == Encode(s[..p]) + BREAK + Encode(rest) + BREAK;
    }
  }

  lemma JoinFirst(s: Bytes, p: nat)
    requires p == FirstBreak(s) < |s|
    ensures Join(Pieces(s)) == Encode(s[..p]) + BREAK + Join(Pieces(s[p + 2..]))
  {
    hide Encode, Pieces, FirstBreak;
    FirstBreakIs(s, p);
    var pieces := [Encode(s[..p])] + Pieces(s[p + 2..]);
    assert pieces[1..] == Pieces(s[p + 2..]);
  }

  lemma EncodeTail(s: Bytes, p: nat)
    requires BreakAt(s, p)
    ensures Encode(s) == Encode(s[..p]) + BREAK + Encode(s[p + 2..])
  {
    assert s == s[..p] + BREAK + s[p + 2..];
    EncodeConcat(s[..p] + BREAK, s[p + 2..]);
    EncodeConcat(s[..p], BREAK);
    EncodeIsIdentityIffAscii(BREAK);
  }
}
