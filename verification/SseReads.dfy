/** A stream of frames as it arrives, one read at a time: each read is split on its own, so it matters
    where the reads end. */
module SseReads {
  import opened Sse

  /** However a stream of frames is cut, no read of it makes the splitter panic. */
  lemma ReadsNeverPanic(bs: seq<Bytes>, i: nat, j: nat)
    requires Bodies(bs) && i <= j <= |Print(bs)|
    ensures !HasTripleNewline(Print(bs)[i..j])
  {
    PrintHasNoTriple(bs);
    assert forall k: nat :: TripleAt(Print(bs)[i..j], k) ==> TripleAt(Print(bs), i + k);
  }

  /** Each read is split on its own: nothing is carried over from one to the next. */
  function ReadFrames(texts: seq<Bytes>): seq<Bytes> {
    if texts == [] then [] else Frames(texts[0]) + ReadFrames(texts[1..])
  }

  /** The carrier stream's loop over what each read brings; what it has emitted by the time a read makes
      the splitter panic stays emitted. */
  method StreamCarrierTrace(texts: seq<Bytes>) returns (emitted: seq<Bytes>, panics: bool)
    ensures panics <==> exists i :: 0 <= i < |texts| && HasTripleNewline(texts[i])
    ensures !panics ==> emitted == ReadFrames(texts)
    ensures panics ==> exists n | 0 <= n < |texts| && HasTripleNewline(texts[n]) ::
      (forall j | 0 <= j < n :: !HasTripleNewline(texts[j])) && emitted == ReadFrames(texts[..n])
  {
    hide Frames, HasTripleNewline;
    emitted, panics := [], false;
    for i := 0 to |texts|
      invariant emitted == ReadFrames(texts[..i])
      invariant forall j | 0 <= j < i :: !HasTripleNewline(texts[j])
    {
      var frames := SplitFrames(texts[i]);
      if frames.Panic? { return emitted, true; }
      ReadFramesAppend(texts[..i], texts[i]);
      assert texts[..i + 1] == texts[..i] + [texts[i]];
      emitted := emitted + frames.value;
    }
    assert texts[..|texts|] == texts;
  }

  lemma {:induction false} ReadFramesAppend(texts: seq<Bytes>, text: Bytes)
    ensures ReadFrames(texts + [text]) == ReadFrames(texts) + Frames(text)
  {
    hide Frames;
    if texts == [] {
      assert [text][1..] == [];
    } else {
      ReadFramesAppend(texts[1..], text);
      assert (texts + [text])[1..] == texts[1..] + [text];
    }
  }

  function Concat(texts: seq<Bytes>): Bytes {
    if texts == [] then [] else texts[0] + Concat(texts[1..])
  }

  /** The newlines of a separator that earlier reads have left over. */
  function Owed(n: nat): Bytes
    requires n <= 2
  {
    if n == 0 then [] else if n == 1 then [NL] else BREAK
  }

  /** Reads that do no harm to the frames of `bs`: each is empty, or one newline of a separator left
      over; or it has that separator whole, or none is left over, and then whole frames, and then
      perhaps one more frame that lacks its separator. */
  ghost predicate Harmless(owed: nat, texts: seq<Bytes>, bs: seq<Bytes>)
    requires owed <= 2
    decreases |texts|
  {
    if texts == [] then bs == [] else
    var r, rest := texts[0], texts[1..];
    || (r == [] && Harmless(owed, rest, bs))
    || (owed > 0 && r == [NL] && Harmless(owed - 1, rest, bs))
    || (owed != 1 && exists m: nat :: m <= |bs| && WholeRead(owed, r, bs, m) && Harmless(0, rest, bs[m..]))
    || (owed != 1 && exists m: nat :: m < |bs| && OpenRead(owed, r, bs, m) && Harmless(2, rest, bs[m + 1..]))
  }

  predicate WholeRead(owed: nat, r: Bytes, bs: seq<Bytes>, m: nat)
    requires owed <= 2 && m <= |bs|
  {
    r == Owed(owed) + Print(bs[..m])
  }

  predicate OpenRead(owed: nat, r: Bytes, bs: seq<Bytes>, m: nat)
    requires owed <= 2 && m < |bs|
  {
    r == Owed(owed) + (Print(bs[..m]) + (PREFIX + bs[m]))
  }

  /** Any reads of a stream of frames: they give the frames of the whole stream in one read exactly if
      they do no harm. */
  lemma ReadsIff(texts: seq<Bytes>, bs: seq<Bytes>)
    requires Bodies(bs) && Concat(texts) == Print(bs)
    ensures ReadFrames(texts) == Frames(Concat(texts)) <==> Harmless(0, texts, bs)
  {
    hide Frames, Encode, Print, Pieces;
    FramesOfAll(bs);
    assert [] + Print(bs) == Print(bs);
    if Harmless(0, texts, bs) { HarmlessReadsLoseNothing(0, texts, bs); }
    if ReadFrames(texts) == EncodeAll(bs) { OnlyHarmlessReadsLoseNothing(0, texts, bs); }
  }

  lemma SkipBreak(rest: Bytes)
    ensures Frames(BREAK + rest) == Frames(rest)
  {
    FirstPiece([], rest);
    assert [] + BREAK + rest == BREAK + rest;
    DataOfConcat([], Pieces(rest));
    var empty: Bytes := [];
    assert DataOf([empty]) == [] by { assert [empty][1..] == []; }
  }

  lemma OpenFrame(b: Bytes)
    requires IsBody(b)
    ensures Frames(PREFIX + b) == [Encode(b)]
  {
    var line := PREFIX + b;
    assert forall i: nat | i < |line| :: line[i] in line;
    OnlyPiece(line);
    DataLine(b);
  }

  lemma NoFrames()
    ensures Frames([]) == []
  {}

  lemma FramesOfAll(bs: seq<Bytes>)
    requires Bodies(bs)
    ensures Frames(Print(bs)) == EncodeAll(bs)
  {
    FramesOfPrint(bs, []);
    assert Print(bs) + [] == Print(bs);
  }

  /** The separator owed yields nothing. */
  lemma SkipOwed(owed: nat, rest: Bytes)
    requires owed == 0 || owed == 2
    ensures Frames(Owed(owed) + rest) == Frames(rest)
  {
    SkipBreak(rest);
    assert [] + rest == rest;
  }

  lemma LoneNewline()
    ensures Frames([NL]) == []
  {
    OnlyPiece([NL]);
    EncodeIsIdentityIffAscii([NL]);
    DataOfConcat([NL], []);
  }

  lemma {:induction false} HarmlessReadsLoseNothing(owed: nat, texts: seq<Bytes>, bs: seq<Bytes>)
    requires Bodies(bs) && owed <= 2 && Harmless(owed, texts, bs)
    ensures ReadFrames(texts) == EncodeAll(bs)
    decreases |texts|
  {
    hide Frames, Encode, EncodeAll, Bodies, WholeRead, OpenRead;
    NoFrames();
    LoneNewline();
    EncodeAllNone();
    if texts != [] {
      var r, rest := texts[0], texts[1..];
      if r == [] && Harmless(owed, rest, bs) {
        HarmlessReadsLoseNothing(owed, rest, bs);
      } else if owed > 0 && r == [NL] && Harmless(owed - 1, rest, bs) {
        HarmlessReadsLoseNothing(owed - 1, rest, bs);
      } else if m: nat :| m <= |bs| && WholeRead(owed, r, bs, m) && Harmless(0, rest, bs[m..]) {
        FramesOfWholeRead(owed, r, bs, m);
        EncodeAllSplit(bs, m);
        HarmlessReadsLoseNothing(0, rest, bs[m..]);
      } else {
        var m: nat :| m < |bs| && OpenRead(owed, r, bs, m) && Harmless(2, rest, bs[m + 1..]);
        FramesOfOpenRead(owed, r, bs, m);
        EncodeAllSplit(bs, m + 1);
        HarmlessReadsLoseNothing(2, rest, bs[m + 1..]);
      }
    }
  }

  lemma EncodeAllSplit(bs: seq<Bytes>, m: nat)
    requires m <= |bs| && Bodies(bs)
    ensures EncodeAll(bs) == EncodeAll(bs[..m]) + EncodeAll(bs[m..])
    ensures Bodies(bs[..m]) && Bodies(bs[m..])
  {
    hide EncodeAll, IsBody;
    EncodeAllConcat(bs[..m], bs[m..]);
    assert bs == bs[..m] + bs[m..];
  }

  lemma FramesOfWholeRead(owed: nat, r: Bytes, bs: seq<Bytes>, m: nat)
    requires Bodies(bs) && m <= |bs| && (owed == 0 || owed == 2) && WholeRead(owed, r, bs, m)
    ensures Frames(r) == EncodeAll(bs[..m])
  {
    hide Frames, EncodeAll, Print, Owed;
    SkipOwed(owed, Print(bs[..m]));
    FramesOfAll(bs[..m]);
  }

  lemma EncodeAllNone()
    ensures EncodeAll([]) == []
  {}

  lemma FramesOfOpenRead(owed: nat, r: Bytes, bs: seq<Bytes>, m: nat)
    requires Bodies(bs) && m < |bs| && (owed == 0 || owed == 2) && OpenRead(owed, r, bs, m)
    ensures Frames(r) == EncodeAll(bs[..m + 1])
  {
    hide Frames, Encode, EncodeAll, Print, Owed;
    SkipOwed(owed, Print(bs[..m]) + (PREFIX + bs[m]));
    FramesOfPrint(bs[..m], PREFIX + bs[m]);
    OpenFrame(bs[m]);
    EncodeAllConcat(bs[..m], [bs[m]]);
    EncodeAllOne(bs[m]);
    assert bs[..m + 1] == bs[..m] + [bs[m]];
  }

  lemma EncodeAllOne(b: Bytes)
    ensures EncodeAll([b]) == [Encode(b)]
  {}

  /** Where a position falls in printed frames: after `m` whole ones, and `k` bytes into the next. */
  lemma {:induction false} Locate(bs: seq<Bytes>, n: nat) returns (m: nat, k: nat)
    requires n <= |Print(bs)|
    ensures m <= |bs| && (m == |bs| ==> k == 0 && n == |Print(bs)|)
    ensures m < |bs| ==>
      (k < |Frame(bs[m])|
       && Print(bs)[..n] == Print(bs[..m]) + Frame(bs[m])[..k]
       && Print(bs)[n..] == Frame(bs[m])[k..] + Print(bs[m + 1..]))
  {
    if bs == [] {
      m, k := 0, 0;
    } else {
      hide Print, Frame;
      var f := Frame(bs[0]);
      PrintFirst(bs);
      if n < |f| {
        m, k := 0, n;
        SliceWithin(f, Print(bs[1..]), n);
        PrintNothing();
        assert bs[..0] == [] && [] + f[..n] == f[..n];
      } else {
        m, k := Locate(bs[1..], n - |f|);
        LocateNext(bs, n, m, k);
        m := m + 1;
      }
    }
  }

  lemma LocateNext(bs: seq<Bytes>, n: nat, m: nat, k: nat)
    requires bs != [] && |Frame(bs[0])| <= n <= |Print(bs)|
    requires m < |bs[1..]| ==>
      (k < |Frame(bs[1..][m])|
       && Print(bs[1..])[..n - |Frame(bs[0])|] == Print(bs[1..][..m]) + Frame(bs[1..][m])[..k]
       && Print(bs[1..])[n - |Frame(bs[0])|..] == Frame(bs[1..][m])[k..] + Print(bs[1..][m + 1..]))
    ensures m + 1 < |bs| ==>
      (k < |Frame(bs[m + 1])|
       && Print(bs)[..n] == Print(bs[..m + 1]) + Frame(bs[m + 1])[..k]
       && Print(bs)[n..] == Frame(bs[m + 1])[k..] + Print(bs[m + 2..]))
  {
    hide Frame, Print;
    if m + 1 < |bs| {
      var f, p := Frame(bs[0]), Print(bs[1..]);
      PrintFirst(bs);
      PrintFirst(bs[..m + 1]);
      assert bs[1..][m + 1..] == bs[m + 2..];
      assert bs[..m + 1][1..] == bs[1..][..m];
      SliceAcross(f, p, n);
    }
  }

  lemma PrintFirst(bs: seq<Bytes>)
    requires bs != []
    ensures Print(bs) == Frame(bs[0]) + Print(bs[1..])
  {}

  lemma PrintNothing()
    ensures Print([]) == []
  {}

  lemma SliceWithin(f: Bytes, p: Bytes, n: nat)
    requires n <= |f|
    ensures (f + p)[..n] == f[..n] && (f + p)[n..] == f[n..] + p
  {}

  lemma SliceAcross(f: Bytes, p: Bytes, n: nat)
    requires |f| <= n <= |f| + |p|
    ensures (f + p)[..n] == f + p[..n - |f|]
    ensures (f + p)[n..] == p[n - |f|..]
  {}

  // ---- Bytes that count ----

  /** The bytes that are not newlines. */
  function Ink(s: Bytes): nat {
    if s == [] then 0 else Ink(s[..|s| - 1]) + if s[|s| - 1] == NL then 0 else 1
  }

  /** What it takes to print the data. */
  function InkOf(data: seq<Bytes>): nat {
    if data == [] then 0 else 6 + Ink(data[0]) + InkOf(data[1..])
  }

  lemma {:induction false} InkConcat(a: Bytes, b: Bytes)
    ensures Ink(a + b) == Ink(a) + Ink(b)
  {
    if b == [] {
      assert a + b == a;
    } else {
      InkConcat(a, b[..|b| - 1]);
      assert (a + b)[..|a + b| - 1] == a + b[..|b| - 1];
    }
  }

  lemma {:induction false} InkOfConcat(a: seq<Bytes>, b: seq<Bytes>)
    ensures InkOf(a + b) == InkOf(a) + InkOf(b)
  {
    if a == [] {
      assert a + b == b;
    } else {
      InkOfConcat(a[1..], b);
      assert (a + b)[1..] == a[1..] + b;
    }
  }

  lemma {:induction false} InkAll(s: Bytes)
    requires NL !in s
    ensures Ink(s) == |s|
  {
    if s != [] { InkAll(s[..|s| - 1]); }
  }

  /** The ink of a text once encoded. */
  function EncodedInk(s: Bytes): nat {
    Ink(Encode(s))
  }

  lemma EncodedInkConcat(a: Bytes, b: Bytes)
    ensures EncodedInk(a + b) == EncodedInk(a) + EncodedInk(b)
  {
    EncodeConcat(a, b);
    InkConcat(Encode(a), Encode(b));
  }

  lemma EncodedInkOfBreak()
    ensures EncodedInk(BREAK) == 0 && EncodedInk([NL]) == 0
  {
    EncodeIsIdentityIffAscii(BREAK);
    EncodeIsIdentityIffAscii([NL]);
    assert [NL][..0] == [];
    assert Ink([NL]) == 0;
    assert BREAK[..1] == [NL];
    assert Ink(BREAK) == Ink(BREAK[..1]);
  }

  lemma EncodedInkOfAscii(s: Bytes)
    requires Ascii(s) && NL !in s
    ensures EncodedInk(s) == |s|
  {
    hide Encode, Ink;
    EncodeIsIdentityIffAscii(s);
    InkAll(s);
    EncodedInkIs(s);
  }

  lemma EncodedInkOfPrefix(k: nat)
    requires k <= 6
    ensures EncodedInk(PREFIX[..k]) == k && EncodedInk(PREFIX) == 6
  {
    hide EncodedInk;
    EncodedInkOfAscii(PREFIX[..k]);
    EncodedInkOfAscii(PREFIX);
  }

  lemma InkOfOnly(data: Bytes)
    ensures InkOf([data]) == 6 + Ink(data)
  {
    hide Ink;
    assert [data][1..] == [];
  }

  lemma InkOfPiece(piece: Bytes)
    ensures InkOf(DataOf([piece])) <= Ink(piece)
  {
    hide Ink, InkOf, DataOf;
    DataOfConcat(piece, []);
    NoInk();
    if IsData(piece) {
      var data := piece[6..];
      assert piece == PREFIX + data;
      InkConcat(PREFIX, data);
      InkAll(PREFIX);
      InkOfOnly(data);
    }
  }

  /** A read cannot give more than it holds. */
  lemma {:induction false} FramesWithinInk(s: Bytes)
    ensures InkOf(Frames(s)) <= EncodedInk(s)
    decreases |s|
  {
    hide IsData, Encode, EncodedInk;
    var p := FirstBreak(s);
    if p < |s| {
      var line, rest := s[..p], s[p + 2..];
      assert s == line + BREAK + rest;
      FramesWithinInk(rest);
      PieceWithinInk(line, rest);
    } else if s != [] {
      InkOfPiece(Encode(s));
      EncodedInkIs(s);
    }
  }

  lemma EncodedInkIs(s: Bytes)
    ensures EncodedInk(s) == Ink(Encode(s))
  {}

  lemma PieceWithinInk(line: Bytes, rest: Bytes)
    requires Pieces(line + BREAK + rest) == [Encode(line)] + Pieces(rest)
    ensures InkOf(Frames(line + BREAK + rest)) <= EncodedInk(line) + InkOf(Frames(rest))
    ensures EncodedInk(line + BREAK + rest) == EncodedInk(line) + EncodedInk(rest)
    ensures !IsData(Encode(line)) ==> InkOf(Frames(line + BREAK + rest)) == InkOf(Frames(rest))
  {
    hide Pieces, Encode, InkOf, IsData, DataOf;
    DataOfConcat(Encode(line), Pieces(rest));
    InkOfPiece(Encode(line));
    InkOfConcat(DataOf([Encode(line)]), DataOf(Pieces(rest)));
    EncodedInkIs(line);
    EncodedInkConcat(line + BREAK, rest);
    EncodedInkConcat(line, BREAK);
    EncodedInkOfBreak();
    assert [] + DataOf(Pieces(rest)) == DataOf(Pieces(rest));
  }

  lemma {:induction false} ReadsWithinInk(texts: seq<Bytes>)
    ensures InkOf(ReadFrames(texts)) <= EncodedInk(Concat(texts))
  {
    hide Frames, EncodedInk;
    if texts != [] {
      FramesWithinInk(texts[0]);
      ReadsWithinInk(texts[1..]);
      InkOfConcat(Frames(texts[0]), ReadFrames(texts[1..]));
      EncodedInkConcat(texts[0], Concat(texts[1..]));
    }
  }

  /** The frames need all the ink there is. */
  lemma {:induction false} PrintNeedsAllInk(bs: seq<Bytes>)
    ensures InkOf(EncodeAll(bs)) == EncodedInk(Print(bs))
  {
    hide Encode;
    if bs == [] {
      EncodeIsIdentityIffAscii([]);
    } else {
      PrintNeedsAllInk(bs[1..]);
      EncodedInkConcat(PREFIX + bs[0] + BREAK, Print(bs[1..]));
      EncodedInkConcat(PREFIX + bs[0], BREAK);
      EncodedInkConcat(PREFIX, bs[0]);
      EncodedInkOfBreak();
      EncodedInkOfPrefix(6);
      EncodedInkIs(bs[0]);
      assert EncodeAll(bs)[1..] == EncodeAll(bs[1..]);
    }
  }

  // ---- Harm ----

  lemma {:induction false} OnlyHarmlessReadsLoseNothing(owed: nat, texts: seq<Bytes>, bs: seq<Bytes>)
    requires Bodies(bs) && owed <= 2 && Concat(texts) == Owed(owed) + Print(bs)
    requires ReadFrames(texts) == EncodeAll(bs)
    ensures Harmless(owed, texts, bs)
    decreases |texts|
  {
    hide Frames, Encode, EncodeAll, Print, WholeRead, OpenRead;
    NoFrames();
    LoneNewline();
    if texts == [] {
      NothingPrinted(bs);
    } else {
      var r, rest := texts[0], texts[1..];
      if r == [] {
        OnlyHarmlessReadsLoseNothing(owed, rest, bs);
      } else if owed > 0 && |r| == 1 {
        assert (r + Concat(rest))[0] == NL && (r + Concat(rest))[1..] == Concat(rest);
        assert (Owed(owed) + Print(bs))[1..] == Owed(owed - 1) + Print(bs);
        assert r == [NL];
        OnlyHarmlessReadsLoseNothing(owed - 1, rest, bs);
      } else if owed == 1 {
        NewlineSpoilsTheRead(r, rest, bs);
      } else {
        var n := |r| - owed;
        SplitAfter(Owed(owed), Print(bs), r, Concat(rest));
        var m, k := Locate(bs, n);
        if m == |bs| || k == 0 {
          EndsWithWholeFrames(owed, texts, bs, m);
          OnlyHarmlessReadsLoseNothing(0, rest, bs[m..]);
        } else {
          EndsInsideAFrame(owed, texts, bs, m, k);
          OnlyHarmlessReadsLoseNothing(2, rest, bs[m + 1..]);
        }
      }
    }
  }

  /** Of two ways to cut the same text, the one that cuts later. */
  lemma SplitAfter(a: Bytes, b: Bytes, c: Bytes, d: Bytes)
    requires a + b == c + d && |a| <= |c|
    ensures var n := |c| - |a|; n <= |b| && c == a + b[..n] && d == b[n..]
  {
    assert |b| == |c| - |a| + |d|;
    assert c == (a + b)[..|c|] && d == (a + b)[|c|..];
  }

  lemma NothingPrinted(bs: seq<Bytes>)
    ensures Print(bs) == [] ==> bs == []
  {}

  lemma EndsWithWholeFrames(owed: nat, texts: seq<Bytes>, bs: seq<Bytes>, m: nat)
    requires Bodies(bs) && texts != [] && (owed == 0 || owed == 2) && m <= |bs|
    requires var n := |texts[0]| - owed;
      0 <= n <= |Print(bs)| && texts[0] == Owed(owed) + Print(bs)[..n] && Concat(texts[1..]) == Print(bs)[n..]
      && Edge(bs, m, n)
    requires ReadFrames(texts) == EncodeAll(bs)
    ensures WholeRead(owed, texts[0], bs, m) && ReadFrames(texts[1..]) == EncodeAll(bs[m..])
    ensures Concat(texts[1..]) == Owed(0) + Print(bs[m..])
  {
    hide Frames, Encode, EncodeAll, Owed, Print, Edge;
    NoneOwed();
    EdgeSplits(bs, m, |texts[0]| - owed);
    SkipOwed(owed, Print(bs[..m]));
    FramesOfAll(bs[..m]);
    EncodeAllConcat(bs[..m], bs[m..]);
    assert bs == bs[..m] + bs[m..];
    SameRest(EncodeAll(bs[..m]), ReadFrames(texts[1..]), EncodeAll(bs[m..]));
  }

  /** The position `n` in the printed frames is where frame `m` begins, or the end. */
  ghost predicate Edge(bs: seq<Bytes>, m: nat, n: nat)
    requires m <= |bs| && n <= |Print(bs)|
  {
    if m == |bs| then n == |Print(bs)|
    else Print(bs)[..n] == Print(bs[..m]) + Frame(bs[m])[..0] && Print(bs)[n..] == Frame(bs[m])[0..] + Print(bs[m + 1..])
  }

  lemma EdgeSplits(bs: seq<Bytes>, m: nat, n: nat)
    requires m <= |bs| && n <= |Print(bs)| && Edge(bs, m, n)
    ensures Print(bs)[..n] == Print(bs[..m]) && Print(bs)[n..] == Print(bs[m..])
  {
    if m == |bs| {
      assert bs[..m] == bs && bs[m..] == [] && Print(bs)[..n] == Print(bs);
    } else {
      assert bs[m..][1..] == bs[m + 1..] && Frame(bs[m])[0..] == Frame(bs[m]);
      assert Print(bs[m..]) == Frame(bs[m]) + Print(bs[m + 1..]);
      assert Print(bs[..m]) + Frame(bs[m])[..0] == Print(bs[..m]);
    }
  }

  lemma NoneOwed()
    ensures forall s: Bytes :: Owed(0) + s == s
  {}

  lemma SameRest(a: seq<Bytes>, b: seq<Bytes>, c: seq<Bytes>)
    requires a + b == a + c
    ensures b == c
  {
    assert (a + b)[|a|..] == b && (a + c)[|a|..] == c;
  }

  /** If a read ends inside a frame and nothing is lost, it ends just before the separator. */
  lemma EndsInsideAFrame(owed: nat, texts: seq<Bytes>, bs: seq<Bytes>, m: nat, k: nat)
    requires Bodies(bs) && texts != [] && (owed == 0 || owed == 2) && m < |bs| && 0 < k < |Frame(bs[m])|
    requires texts[0] == Owed(owed) + (Print(bs[..m]) + Frame(bs[m])[..k])
    requires Concat(texts[1..]) == Frame(bs[m])[k..] + Print(bs[m + 1..])
    requires ReadFrames(texts) == EncodeAll(bs)
    ensures OpenRead(owed, texts[0], bs, m) && ReadFrames(texts[1..]) == EncodeAll(bs[m + 1..])
    ensures Concat(texts[1..]) == Owed(2) + Print(bs[m + 1..])
  {
    hide Frames, Encode, EncodeAll, Print;
    var b, head, rest := bs[m], Frame(bs[m])[..k], ReadFrames(texts[1..]);
    SkipOwed(owed, Print(bs[..m]) + head);
    FramesOfPrint(bs[..m], head);
    EncodeAllConcat(bs[..m], [b]);
    EncodeAllConcat(bs[..m] + [b], bs[m + 1..]);
    EncodeAllOne(b);
    assert bs == bs[..m] + [b] + bs[m + 1..];
    assert EncodeAll(bs[..m]) + Frames(head) + rest == EncodeAll(bs[..m]) + (Frames(head) + rest);
    assert EncodeAll(bs) == EncodeAll(bs[..m]) + ([Encode(b)] + EncodeAll(bs[m + 1..]));
    SameRest(EncodeAll(bs[..m]), Frames(head) + rest, [Encode(b)] + EncodeAll(bs[m + 1..]));
    CutFrame(b, texts[1..], bs[m + 1..], k);
    assert Frame(b)[..|PREFIX + b|] == PREFIX + b && Frame(b)[|PREFIX + b|..] == BREAK;
    SameRest([Encode(b)], rest, EncodeAll(bs[m + 1..]));
  }

  /** Whatever becomes of the later reads, a cut anywhere else in a frame shows. */
  lemma CutFrame(b: Bytes, rest: seq<Bytes>, after: seq<Bytes>, k: nat)
    requires IsBody(b) && Bodies(after) && 0 < k < |Frame(b)|
    requires Concat(rest) == Frame(b)[k..] + Print(after)
    requires Frames(Frame(b)[..k]) + ReadFrames(rest) == [Encode(b)] + EncodeAll(after)
    ensures k == |PREFIX + b| && Frames(Frame(b)[..k]) == [Encode(b)]
  {
    hide Frames, Encode, EncodeAll, Print;
    if k <= 6 {
      CutInPrefix(b, rest, after, k);
    } else if k < |PREFIX + b| {
      CutInBody(b, k);
      var part :| Frames(Frame(b)[..k]) == [part] && part != Encode(b);
      FirstDiffers(part, ReadFrames(rest), Encode(b), EncodeAll(after));
    } else if k == |PREFIX + b| {
      assert Frame(b)[..k] == PREFIX + b;
      OpenFrame(b);
    } else {
      CutInBreak(b);
      var more :| Frames(Frame(b)[..|PREFIX + b| + 1]) == [more] && more != Encode(b);
      FirstDiffers(more, ReadFrames(rest), Encode(b), EncodeAll(after));
    }
  }

  lemma FirstDiffers(x: Bytes, xs: seq<Bytes>, y: Bytes, ys: seq<Bytes>)
    requires x != y
    ensures [x] + xs != [y] + ys
  {
    assert ([x] + xs)[0] == x && ([y] + ys)[0] == y;
  }

  lemma ShortHead(k: nat)
    requires 0 < k <= 6
    ensures Frames(PREFIX[..k]) == []
  {
    var head := PREFIX[..k];
    assert forall i: nat :: !BreakAt(head, i);
    OnlyPiece(head);
    EncodeIsIdentityIffAscii(head);
    DataOfConcat(Encode(head), []);
  }

  /** The first read yields nothing, and what is left has too little ink. */
  lemma CutInPrefix(b: Bytes, rest: seq<Bytes>, after: seq<Bytes>, k: nat)
    requires IsBody(b) && Bodies(after) && 0 < k <= 6
    requires Concat(rest) == Frame(b)[k..] + Print(after)
    ensures Frames(Frame(b)[..k]) + ReadFrames(rest) != [Encode(b)] + EncodeAll(after)
  {
    hide Frames, Encode, EncodeAll, EncodedInk, ReadFrames, Print, Concat, InkOf, IsBody;
    var all := [b] + after;
    assert Frame(b)[..k] == PREFIX[..k];
    ShortHead(k);
    assert all[1..] == after;
    PrintFirst(all);
    assert Print(all) == PREFIX[..k] + Concat(rest);
    EncodedInkConcat(PREFIX[..k], Concat(rest));
    EncodedInkOfPrefix(k);
    ReadsWithinInk(rest);
    PrintNeedsAllInk(all);
    EncodeAllConcat([b], after);
    EncodeAllOne(b);
    assert [] + ReadFrames(rest) == ReadFrames(rest);
  }

  /** The first read yields a part of the body. */
  lemma CutInBody(b: Bytes, k: nat)
    requires IsBody(b) && 6 < k < |PREFIX + b|
    ensures exists part :: Frames(Frame(b)[..k]) == [part] && part != Encode(b)
  {
    hide Pieces, Encode;
    var part := b[..k - 6];
    var head := PREFIX + part;
    assert Frame(b)[..k] == head;
    assert forall i: nat | i < |head| :: head[i] == (PREFIX + b)[i] && head[i] != NL;
    OnlyPiece(head);
    DataLine(part);
    PartIsShorter(b, k - 6);
    assert Frames(Frame(b)[..k]) == [Encode(part)];
  }

  lemma PartIsShorter(b: Bytes, n: nat)
    requires n < |b|
    ensures |Encode(b[..n])| < |Encode(b)|
  {
    assert b == b[..n] + b[n..];
    EncodeConcat(b[..n], b[n..]);
    EncodeIsIdentityIffAscii(b[n..]);
  }

  /** The first read yields the body with a newline. */
  lemma CutInBreak(b: Bytes)
    requires IsBody(b)
    ensures exists more :: Frames(Frame(b)[..|PREFIX + b| + 1]) == [more] && more != Encode(b)
  {
    var head := PREFIX + (b + [NL]);
    assert Frame(b)[..|PREFIX + b| + 1] == head;
    assert forall i: nat | i < |head| - 1 :: head[i] == (PREFIX + b)[i] && head[i] != NL;
    OnlyPiece(head);
    DataLine(b + [NL]);
    EncodeConcat(b, [NL]);
    EncodeIsIdentityIffAscii([NL]);
    assert Frames(Frame(b)[..|PREFIX + b| + 1]) == [Encode(b + [NL])];
  }

  /** A read that starts with the second newline of a separator and goes on loses its first piece. */
  lemma NewlineSpoilsTheRead(r: Bytes, rest: seq<Bytes>, bs: seq<Bytes>)
    requires |r| >= 2 && r + Concat(rest) == [NL] + Print(bs)
    ensures Frames(r) + ReadFrames(rest) != EncodeAll(bs)
  {
    hide Frames, Encode, EncodeAll, EncodedInk, ReadFrames, InkOf;
    assert r[0] == (r + Concat(rest))[0] == NL;
    assert r[1] == (r + Concat(rest))[1] == Print(bs)[0] == 100;
    FirstPieceLost(r);
    ReadsWithinInk(rest);
    EncodedInkConcat(r, Concat(rest));
    EncodedInkConcat([NL], Print(bs));
    EncodedInkOfBreak();
    PrintNeedsAllInk(bs);
    InkOfConcat(Frames(r), ReadFrames(rest));
  }

  lemma FirstPieceLost(r: Bytes)
    requires |r| >= 2 && r[0] == NL && r[1] == 100
    ensures InkOf(Frames(r)) < EncodedInk(r)
  {
    hide IsData, Encode, EncodedInk, InkOf;
    var p := FirstBreak(r);
    StartsWithNewline(r[..p]);
    if p < |r| {
      var rest := r[p + 2..];
      assert r == r[..p] + BREAK + rest;
      PieceWithinInk(r[..p], rest);
      FramesWithinInk(rest);
    } else {
      assert r[..p] == r;
      DataOfConcat(Encode(r), []);
      NoInk();
    }
  }

  lemma NoInk()
    ensures InkOf([]) == 0
  {}

  lemma StartsWithNewline(s: Bytes)
    requires |s| >= 2 && s[0] == NL && s[1] == 100
    ensures !IsData(Encode(s)) && EncodedInk(s) >= 1
  {
    hide Encode, EncodedInk;
    var front: Bytes := [NL, 100];
    assert s == front + s[2..];
    EncodedInkConcat(front, s[2..]);
    EncodeConcat(front, s[2..]);
    InkAfterNewline(front);
    assert Encode(s)[0] == NL;
  }

  lemma InkAfterNewline(s: Bytes)
    requires s == [NL, 100]
    ensures Encode(s) == s && EncodedInk(s) == 1
  {
    hide Encode;
    EncodeIsIdentityIffAscii(s);
    EncodedInkIs(s);
    assert s == [NL] + [100];
    InkConcat([NL], [100]);
    InkOfOne(NL);
    InkOfOne(100);
  }

  lemma InkOfOne(b: Byte)
    ensures Ink([b]) == if b == NL then 0 else 1
  {
    assert [b][..0] == [];
  }
}
