/** The overlapping text chunker (`src/content.rs`): a byte-offset loop over UTF-8
    text that prefers to cut at a line, then at a space. */
module Chunker {
  import opened Numbers
  import opened Utf8
  import opened Wrappers

  const SPACE: byte := 0x20

  const MIN_CHUNK_SIZE := 10
  const MAX_CHUNK_SIZE := 100_000

  datatype Window = Window(start: nat, end: nat)
  datatype TextChunk = TextChunk(index: nat, start: nat, end: nat, text: string)

  function ClampChunkParams(size: nat, overlap: nat): (nat, nat) {
    var size := Min(Max(size, MIN_CHUNK_SIZE), MAX_CHUNK_SIZE);
    (size, Min(Min(overlap, size - 1), size / 2))
  }

  function Distance(a: nat, b: nat): nat {
    if a < b then b - a else a - b
  }

  /** Clamping takes the allowed size nearest to the one asked for, and the largest overlap
      asked for at most that does not exceed half of it. */
  lemma ClampIsNearest(size: nat, overlap: nat)
    ensures var (csize, coverlap) := ClampChunkParams(size, overlap);
      && 10 <= csize <= 100_000
      && (forall n: nat | 10 <= n <= 100_000 :: Distance(csize, size) <= Distance(n, size))
      && 2 * coverlap <= csize && coverlap <= overlap
      && (forall n: nat | 2 * n <= csize && n <= overlap :: n <= coverlap)
  {
  }

  // ---- One window ------------------------------------------------------------

  /** `rfind` of a single-byte character in the bytes `lo..hi`. */
  function Last(t: seq<byte>, b: byte, lo: nat, hi: nat): (r: Option<nat>)
    requires lo <= hi <= |t|
    ensures r.Some? ==> lo <= r.value < hi && t[r.value] == b
  {
    if lo == hi then None else if t[hi - 1] == b then Some(hi - 1) else Last(t, b, lo, hi - 1)
  }

  lemma LastIsLast(t: seq<byte>, b: byte, lo: nat, hi: nat, i: nat)
    requires lo <= i < hi <= |t| && t[i] == b
    ensures Last(t, b, lo, hi).Some? && i <= Last(t, b, lo, hi).value
  {
  }

  function LastBreak(t: seq<byte>, lo: nat, hi: nat): Option<nat>
    requires lo <= hi <= |t|
  {
    if Last(t, NEWLINE, lo, hi).Some? then Last(t, NEWLINE, lo, hi) else Last(t, SPACE, lo, hi)
  }

  function HardEnd(t: seq<byte>, size: nat, s: nat): (h: nat)
    requires s < |t| && size > 0
    ensures s < h <= |t| && Boundary(t, h)
  {
    Ceil(t, Min(s + size, |t|))
  }

  function End(t: seq<byte>, size: nat, s: nat): (e: nat)
    requires s < |t| && size > 0
    ensures s < e <= HardEnd(t, size, s)
  {
    var h := HardEnd(t, size, s);
    if h < |t| then
      var cut := LastBreak(t, s, h);
      Max(if cut.Some? then cut.value + 1 else h, s + 1)
    else
      h
  }

  /** Step back from the end by the overlap; on a stall, resume at the end itself. */
  function Resume(t: seq<byte>, overlap: nat, s: nat, e: nat): (n: nat)
    requires s < e <= |t|
    ensures s < n <= e
  {
    var n := Floor(t, if e > overlap then e - overlap else 0);
    if n <= s then e else n
  }

  /** Where the window after the one at `s` starts. */
  function Next(t: seq<byte>, size: nat, overlap: nat, s: nat): (n: nat)
    requires s < |t| && size > 0
    ensures s < n <= End(t, size, s)
  {
    Resume(t, overlap, s, End(t, size, s))
  }

  /** No `b` among the bytes `lo..hi`. */
  predicate Without(t: seq<byte>, b: byte, lo: nat, hi: nat)
    requires hi <= |t|
  {
    forall i | lo <= i < hi :: t[i] != b
  }

  lemma {:induction false} LastOrNone(t: seq<byte>, b: byte, lo: nat, hi: nat)
    requires lo <= hi <= |t|
    ensures var p := Last(t, b, lo, hi); Without(t, b, if p.Some? then p.value + 1 else lo, hi)
  {
    if lo < hi && t[hi - 1] != b {
      LastOrNone(t, b, lo, hi - 1);
    }
  }

  /** Where a window ends, said without the search: at the end of the text when the byte
      budget reaches it, else after the last newline in budget, else after the last space
      in budget, else at the first boundary past the budget. */
  lemma WindowEndsAtTheLastBreak(t: seq<byte>, size: nat, s: nat)
    requires s < |t| && size > 0
    ensures var h, e := HardEnd(t, size, s), End(t, size, s);
      && (forall k | Min(s + size, |t|) <= k < h :: !Boundary(t, k))
      && (h == |t| ==> e == |t|)
      && (h < |t| && !Without(t, NEWLINE, s, h) ==> t[e - 1] == NEWLINE && Without(t, NEWLINE, e, h))
      && (h < |t| && Without(t, NEWLINE, s, h) && !Without(t, SPACE, s, h) ==>
            t[e - 1] == SPACE && Without(t, SPACE, e, h))
      && (h < |t| && Without(t, NEWLINE, s, h) && Without(t, SPACE, s, h) ==> e == h)
  {
    var h := HardEnd(t, size, s);
    forall k | Min(s + size, |t|) <= k < h ensures !Boundary(t, k) {
      if Boundary(t, k) {
        CeilIsFirst(t, Min(s + size, |t|), k);
      }
    }
    LastOrNone(t, NEWLINE, s, h);
    LastOrNone(t, SPACE, s, h);
  }

  /** Where the next window starts, said without the search: at the last boundary at least
      `overlap` bytes before the end, if that is past this start, else at the end. */
  lemma NextWindowStepsBackTheOverlap(t: seq<byte>, size: nat, overlap: nat, s: nat)
    requires s < |t| && size > 0
    ensures var e, n := End(t, size, s), Next(t, size, overlap, s);
      if exists k | s < k <= e - overlap :: Boundary(t, k)
      then n <= e - overlap && Boundary(t, n) && forall k | n < k <= e - overlap :: !Boundary(t, k)
      else n == e
  {
    var e := End(t, size, s);
    var back := if e > overlap then e - overlap else 0;
    forall k | Floor(t, back) < k <= back ensures !Boundary(t, k) {
      if Boundary(t, k) {
        FloorIsLast(t, back, k);
      }
    }
  }

  function Windows(t: seq<byte>, size: nat, overlap: nat, s: nat): (ws: seq<Window>)
    requires size > 0
    decreases |t| - s
  {
    if s >= |t| then []
    else
      var e := End(t, size, s);
      [Window(s, e)] + (if e >= |t| then [] else Windows(t, size, overlap, Next(t, size, overlap, s)))
  }

  // ---- Chunks of windows -----------------------------------------------------

  /** The Unicode White_Space characters. */
  predicate White(c: char) {
    var n := c as int;
    || 9 <= n <= 13 || n == 0x20 || n == 0x85 || n == 0xA0 || n == 0x1680
    || 0x2000 <= n <= 0x200A || n == 0x2028 || n == 0x2029 || n == 0x202F || n == 0x205F || n == 0x3000
  }

  function Leading(s: string): (n: nat)
    ensures n <= |s|
  {
    if s != [] && White(s[0]) then 1 + Leading(s[1..]) else 0
  }

  function Kept(s: string): (n: nat)
    ensures n <= |s|
  {
    if s != [] && White(s[|s| - 1]) then Kept(s[..|s| - 1]) else |s|
  }

  /** `str::trim`. */
  function Trim(s: string): string {
    if Leading(s) <= Kept(s) then s[Leading(s)..Kept(s)] else []
  }

  lemma TrimKeepsInk(s: string, k: nat)
    requires k < |s| && !White(s[k])
    ensures Leading(s) <= k < Kept(s)
  {
    InkAfterLeading(s, k);
    InkBeforeKept(s, k);
  }

  lemma InkAfterLeading(s: string, k: nat)
    requires k < |s| && !White(s[k])
    ensures Leading(s) <= k
  {
    if White(s[0]) {
      InkAfterLeading(s[1..], k - 1);
    }
  }

  lemma InkBeforeKept(s: string, k: nat)
    requires k < |s| && !White(s[k])
    ensures k < Kept(s)
  {
    if White(s[|s| - 1]) {
      InkBeforeKept(s[..|s| - 1], k);
    }
  }

  /** Only an all-white-space window is blank. */
  lemma BlankIffWhite(s: string)
    ensures Trim(s) == [] <==> forall i | 0 <= i < |s| :: White(s[i])
  {
    if i: nat :| i < |s| && !White(s[i]) {
      TrimKeepsInk(s, i);
    } else {
      AllWhite(s);
    }
  }

  lemma AllWhite(s: string)
    requires forall i | 0 <= i < |s| :: White(s[i])
    ensures Leading(s) == |s| && Kept(s) == 0
  {
    if s != [] {
      AllWhite(s[1..]);
      AllWhite(s[..|s| - 1]);
    }
  }

  lemma SliceOfSlice(s: string, a: nat, b: nat, i: nat, j: nat)
    requires a <= b <= |s| && i <= j <= b - a
    ensures s[a..b][i..j] == s[a + i..a + j]
  {
    var x, y := s[a..b][i..j], s[a + i..a + j];
    assert |x| == |y| && forall k | 0 <= k < |x| :: x[k] == y[k];
  }

  lemma {:induction false} LeadingIsWhite(s: string)
    ensures forall i | 0 <= i < Leading(s) :: White(s[i])
    ensures Leading(s) < |s| ==> !White(s[Leading(s)])
  {
    if s != [] && White(s[0]) {
      LeadingIsWhite(s[1..]);
      assert forall i | 0 < i < Leading(s) :: s[i] == s[1..][i - 1];
    }
  }

  lemma {:induction false} TrailingIsWhite(s: string)
    ensures forall i | Kept(s) <= i < |s| :: White(s[i])
    ensures Kept(s) > 0 ==> !White(s[Kept(s) - 1])
  {
    if s != [] && White(s[|s| - 1]) {
      TrailingIsWhite(s[..|s| - 1]);
    }
  }

  /** `s[i..j]` is `s` without the white space around it. */
  predicate Tight(s: string, i: nat, j: nat) {
    && i < j <= |s|
    && !White(s[i]) && !White(s[j - 1])
    && (forall k | 0 <= k < i :: White(s[k]))
    && (forall k | j <= k < |s| :: White(s[k]))
  }

  /** Trimming takes off exactly the white space at both ends. */
  lemma TrimIsTight(s: string) returns (i: nat, j: nat)
    requires Trim(s) != []
    ensures Tight(s, i, j) && Trim(s) == s[i..j]
  {
    LeadingIsWhite(s);
    TrailingIsWhite(s);
    i, j := Leading(s), Kept(s);
  }

  predicate Sliceable(t: seq<byte>, w: Window) {
    w.start <= w.end <= |t| && Boundary(t, w.start) && Boundary(t, w.end)
  }

  ghost predicate AllSliceable(t: seq<byte>, ws: seq<Window>) {
    forall i | 0 <= i < |ws| :: Sliceable(t, ws[i])
  }

  function Body(text: string, w: Window): string
    requires Sliceable(Encode(text), w)
  {
    Trim(Slice(text, w.start, w.end))
  }

  function Bodies(text: string, ws: seq<Window>): (bodies: seq<string>)
    requires AllSliceable(Encode(text), ws)
    ensures |bodies| == |ws| && forall i | 0 <= i < |ws| :: bodies[i] == Body(text, ws[i])
  {
    if ws == [] then []
    else
      assert AllSliceable(Encode(text), ws[..|ws| - 1]);
      Bodies(text, ws[..|ws| - 1]) + [Body(text, ws[|ws| - 1])]
  }

  /** Push a window's trimmed text unless it is blank. */
  function Push(done: seq<TextChunk>, w: Window, body: string): seq<TextChunk> {
    if body == [] then done else done + [TextChunk(|done|, w.start, w.end, body)]
  }

  /** The chunks of the first `n` windows: blank ones skipped, numbered in order. */
  function Collect(ws: seq<Window>, bodies: seq<string>, n: nat): seq<TextChunk>
    requires n <= |ws| == |bodies|
  {
    if n == 0 then [] else Push(Collect(ws, bodies, n - 1), ws[n - 1], bodies[n - 1])
  }

  function ChunksOf(text: string, ws: seq<Window>): seq<TextChunk>
    requires AllSliceable(Encode(text), ws)
  {
    Collect(ws, Bodies(text, ws), |ws|)
  }

  /** `chunk_text`: the loop produces the chunks of the window list. */
  method ChunkText(text: string, size: nat, overlap: nat) returns (chunks: seq<TextChunk>)
    ensures size == 0 ==> chunks == []
    ensures size > 0 ==>
      var ws := Windows(Encode(text), size, Min(overlap, size - 1), 0);
      AllSliceable(Encode(text), ws) && chunks == ChunksOf(text, ws)
    ensures forall c <- chunks :: IsTrimmed(text, c)
  {
    chunks := [];
    if size == 0 {
      return;
    }
    var overlap := Min(overlap, size - 1);
    var t := Encode(text);
    EncodedIsSpaced(text);
    var start := 0;
    ghost var ws, n := Windows(t, size, overlap, 0), 0;
    WindowsAreChained(t, size, overlap, 0);
    WindowsAreSliceable(t, size, overlap);
    ghost var bodies := Bodies(text, ws);
    while start < |t|
      invariant n < |ws| ==> start == ws[n].start
      invariant n == |ws| <==> start >= |t|
      invariant n <= |ws| && chunks == Collect(ws, bodies, n)
      decreases |ws| - n
    {
      var chunkEnd := End(t, size, start);
      WindowAt(t, size, overlap, ws, n);
      assert Sliceable(t, ws[n]) && bodies[n] == Body(text, ws[n]);
      chunks := Push(chunks, Window(start, chunkEnd), Body(text, Window(start, chunkEnd)));
      n := n + 1;
      if chunkEnd >= |t| {
        break;
      }
      start := Resume(t, overlap, start, chunkEnd);
    }
    ChunksAreTrimmed(text, size, overlap);
  }

  /** The window at `n` and how the next one follows. */
  lemma WindowAt(t: seq<byte>, size: nat, overlap: nat, ws: seq<Window>, n: nat)
    requires size > 0 && Chained(t, size, overlap, 0, ws) && n < |ws|
    ensures ws[n].start < |t| && ws[n] == Window(ws[n].start, End(t, size, ws[n].start))
    ensures n + 1 == |ws| <==> ws[n].end >= |t|
    ensures n + 1 < |ws| ==> ws[n + 1].start == Resume(t, overlap, ws[n].start, ws[n].end) < |t|
  {
    if n + 1 < |ws| {
      assert Follows(t, size, overlap, ws[n + 1 - 1], ws[n + 1]);
    }
  }

  // ---- Window bounds ---------------------------------------------------------

  lemma EndIsBoundary(t: seq<byte>, size: nat, s: nat)
    requires Spaced(t) && s < |t| && size > 0
    ensures Boundary(t, End(t, size, s))
    ensures End(t, size, s) <= s + size + 3
  {
    var h := HardEnd(t, size, s);
    RoundingIsShort(t, Min(s + size, |t|));
    if h < |t| {
      var cut := LastBreak(t, s, h);
      if cut.Some? && cut.value + 1 < |t| {
        assert !StrayTail(t, cut.value);
      }
    }
  }

  /** The windows of a run of the loop that starts at `s`. */
  ghost predicate Chained(t: seq<byte>, size: nat, overlap: nat, s: nat, ws: seq<Window>)
    requires size > 0
  {
    && (s >= |t| <==> ws == [])
    && (ws != [] ==> ws[0].start == s && ws[|ws| - 1].end == |t|)
    && (forall i | 0 <= i < |ws| :: ws[i].start < |t| && ws[i].end == End(t, size, ws[i].start))
    && (forall i | 0 < i < |ws| :: Follows(t, size, overlap, ws[i - 1], ws[i]))
  }

  predicate Follows(t: seq<byte>, size: nat, overlap: nat, v: Window, w: Window)
    requires size > 0
  {
    v.start < |t| && v.end < |t| && w.start == Next(t, size, overlap, v.start)
  }

  lemma {:induction false} WindowsAreChained(t: seq<byte>, size: nat, overlap: nat, s: nat)
    requires size > 0
    ensures Chained(t, size, overlap, s, Windows(t, size, overlap, s))
    decreases |t| - s
  {
    if s < |t| && End(t, size, s) < |t| {
      var n := Next(t, size, overlap, s);
      WindowsAreChained(t, size, overlap, n);
      ChainLonger(t, size, overlap, s, Windows(t, size, overlap, n));
    }
  }

  lemma ChainLonger(t: seq<byte>, size: nat, overlap: nat, s: nat, ws: seq<Window>)
    requires size > 0 && s < |t| && End(t, size, s) < |t|
    requires Chained(t, size, overlap, Next(t, size, overlap, s), ws)
    ensures Chained(t, size, overlap, s, [Window(s, End(t, size, s))] + ws)
  {
    var all := [Window(s, End(t, size, s))] + ws;
    assert forall i | 1 <= i < |all| :: all[i] == ws[i - 1];
    forall i | 0 < i < |all| ensures Follows(t, size, overlap, all[i - 1], all[i]) {
      if i > 1 {
        assert Follows(t, size, overlap, ws[i - 1 - 1], ws[i - 1]);
      }
    }
  }

  lemma {:induction false} StartIsBoundary(t: seq<byte>, size: nat, overlap: nat, ws: seq<Window>, i: nat)
    requires size > 0 && Spaced(t) && Chained(t, size, overlap, 0, ws) && i < |ws|
    ensures Boundary(t, ws[i].start)
  {
    if i > 0 {
      EndIsBoundary(t, size, ws[i - 1].start);
    }
  }

  lemma WindowsAreSliceable(t: seq<byte>, size: nat, overlap: nat)
    requires size > 0 && Spaced(t)
    ensures AllSliceable(t, Windows(t, size, overlap, 0))
  {
    var ws := Windows(t, size, overlap, 0);
    WindowsAreChained(t, size, overlap, 0);
    forall i | 0 <= i < |ws| ensures Sliceable(t, ws[i]) {
      StartIsBoundary(t, size, overlap, ws, i);
      EndIsBoundary(t, size, ws[i].start);
    }
  }

  // ---- Coverage --------------------------------------------------------------

  /** The byte at `p` lies in some window. */
  lemma {:induction false} SomeWindowCovers(t: seq<byte>, size: nat, overlap: nat, ws: seq<Window>, p: nat)
      returns (i: nat)
    requires size > 0 && Chained(t, size, overlap, 0, ws) && p < |t|
    ensures i < |ws| && ws[i].start <= p < ws[i].end
  {
    i := 0;
    while ws[i].end <= p
      invariant i < |ws| && ws[i].start <= p
      decreases |ws| - i
    {
      assert i + 1 < |ws|;
      assert Follows(t, size, overlap, ws[i + 1 - 1], ws[i + 1]);
      i := i + 1;
    }
  }

  /** The chunk made from window `i`, unless that window is blank. */
  lemma {:induction false} ChunkOfWindow(ws: seq<Window>, bodies: seq<string>, n: nat, i: nat) returns (c: nat)
    requires i < n <= |ws| == |bodies| && bodies[i] != []
    ensures c < |Collect(ws, bodies, n)|
    ensures Collect(ws, bodies, n)[c] == TextChunk(c, ws[i].start, ws[i].end, bodies[i])
  {
    if i == n - 1 {
      c := |Collect(ws, bodies, n - 1)|;
    } else {
      c := ChunkOfWindow(ws, bodies, n - 1, i);
    }
  }

  /** Conversely every chunk is a window with something visible in it. */
  lemma {:induction false} WindowOfChunk(ws: seq<Window>, bodies: seq<string>, n: nat, c: nat) returns (i: nat)
    requires n <= |ws| == |bodies| && c < |Collect(ws, bodies, n)|
    ensures i < n && bodies[i] != []
    ensures Collect(ws, bodies, n)[c] == TextChunk(c, ws[i].start, ws[i].end, bodies[i])
  {
    if bodies[n - 1] != [] && c == |Collect(ws, bodies, n)| - 1 {
      i := n - 1;
    } else {
      i := WindowOfChunk(ws, bodies, n - 1, c);
    }
  }

  /** The chunk's text is what its byte range holds, without the white space around it. */
  ghost predicate IsTrimmed(text: string, c: TextChunk) {
    exists a: nat, b: nat, i: nat, j: nat :: TrimmedAt(text, c, a, b, i, j)
  }

  /** The byte range holds the characters `a..b`, and the chunk's text is `i..j` of those. */
  predicate TrimmedAt(text: string, c: TextChunk, a: nat, b: nat, i: nat, j: nat) {
    && a <= b <= |text| && Offset(text, a) == c.start && Offset(text, b) == c.end
    && Tight(text[a..b], i, j) && c.text == text[a..b][i..j]
  }

  lemma ChunkIsTrimmed(text: string, ws: seq<Window>, c: nat)
    requires AllSliceable(Encode(text), ws) && c < |ChunksOf(text, ws)|
    ensures IsTrimmed(text, ChunksOf(text, ws)[c])
  {
    var i := WindowOfChunk(ws, Bodies(text, ws), |ws|, c);
    WindowIsTrimmed(text, ws[i], ChunksOf(text, ws)[c]);
  }

  lemma WindowIsTrimmed(text: string, w: Window, c: TextChunk)
    requires Sliceable(Encode(text), w) && Body(text, w) != []
    requires c.start == w.start && c.end == w.end && c.text == Body(text, w)
    ensures IsTrimmed(text, c)
  {
    var a, b := CharIndex(text, w.start), CharIndex(text, w.end);
    BoundariesAreOffsets(text, w.start);
    BoundariesAreOffsets(text, w.end);
    SliceInOrder(text, w.start, w.end);
    var i, j := TrimIsTight(text[a..b]);
    assert TrimmedAt(text, c, a, b, i, j);
  }

  /** Every chunk of every text is trimmed. */
  lemma ChunksAreTrimmed(text: string, size: nat, overlap: nat)
    requires size > 0
    ensures var ws := Windows(Encode(text), size, overlap, 0);
      AllSliceable(Encode(text), ws) && forall c <- ChunksOf(text, ws) :: IsTrimmed(text, c)
  {
    var ws := Windows(Encode(text), size, overlap, 0);
    EncodedIsSpaced(text);
    WindowsAreSliceable(Encode(text), size, overlap);
    forall c | 0 <= c < |ChunksOf(text, ws)| ensures IsTrimmed(text, ChunksOf(text, ws)[c]) {
      ChunkIsTrimmed(text, ws, c);
    }
  }

  /** The characters of a window that contains the start of character `k`. */
  lemma WindowHasChar(text: string, w: Window, k: nat)
    requires Sliceable(Encode(text), w) && k < |text|
    requires w.start <= Offset(text, k) < w.end
    ensures CharIndex(text, w.start) <= k < CharIndex(text, w.end)
  {
    BoundariesAreOffsets(text, w.start);
    BoundariesAreOffsets(text, w.end);
    if k < CharIndex(text, w.start) {
      OffsetGrows(text, k, CharIndex(text, w.start));
    }
    if CharIndex(text, w.end) < k {
      OffsetGrows(text, CharIndex(text, w.end), k);
    }
  }

  lemma StretchHasInk(text: string, a: nat, b: nat, k: nat) returns (lo: nat, hi: nat)
    requires a <= k < b <= |text| && !White(text[k])
    ensures a <= lo <= k < hi <= b && Trim(text[a..b]) == text[lo..hi]
  {
    var body := text[a..b];
    assert body[k - a] == text[k];
    TrimKeepsInk(body, k - a);
    var i, j := Leading(body), Kept(body);
    assert Trim(body) == body[i..j];
    SliceOfSlice(text, a, b, i, j);
    lo, hi := a + i, a + j;
  }

  /** Trimming a window keeps the visible characters in it, as one stretch. */
  lemma BodyHasInk(text: string, w: Window, k: nat) returns (lo: nat, hi: nat)
    requires Sliceable(Encode(text), w) && k < |text| && !White(text[k])
    requires w.start <= Offset(text, k) < w.end
    ensures lo <= k < hi <= |text| && Body(text, w) == text[lo..hi]
    ensures w.start <= Offset(text, lo) && Offset(text, hi) <= w.end
  {
    var a, b := CharIndex(text, w.start), CharIndex(text, w.end);
    WindowHasChar(text, w, k);
    lo, hi := StretchHasInk(text, a, b, k);
    BoundariesAreOffsets(text, w.start);
    BoundariesAreOffsets(text, w.end);
    if a < lo { OffsetGrows(text, a, lo); }
    if hi < b { OffsetGrows(text, hi, b); }
  }

  /** Every visible character of the text is in some chunk: the chunk's text is the
      stretch `lo..hi` of the article, inside the offsets it reports, around `k`. */
  lemma NoInkIsLost(text: string, size: nat, overlap: nat, k: nat) returns (c: nat, lo: nat, hi: nat)
    requires size > 0 && k < |text| && !White(text[k])
    ensures AllSliceable(Encode(text), Windows(Encode(text), size, overlap, 0))
    ensures var cs := ChunksOf(text, Windows(Encode(text), size, overlap, 0));
      && c < |cs| && lo <= k < hi <= |text| && cs[c].text == text[lo..hi]
      && cs[c].start <= Offset(text, lo) && Offset(text, hi) <= cs[c].end
  {
    var t := Encode(text);
    var ws := Windows(t, size, overlap, 0);
    EncodedIsSpaced(text);
    WindowsAreChained(t, size, overlap, 0);
    WindowsAreSliceable(t, size, overlap);
    OffsetEnds(text);
    OffsetGrows(text, k, |text|);
    var i := SomeWindowCovers(t, size, overlap, ws, Offset(text, k));
    assert Sliceable(t, ws[i]);
    lo, hi := BodyHasInk(text, ws[i], k);
    c := ChunkOfWindow(ws, Bodies(text, ws), |ws|, i);
  }

  // ---- Ends never go back ------------------------------------------------------

  lemma CeilMonotone(t: seq<byte>, i: nat, j: nat)
    requires i <= j <= |t|
    ensures Ceil(t, i) <= Ceil(t, j)
  {
    CeilIsFirst(t, i, Ceil(t, j));
  }

  lemma HardEndsGrow(t: seq<byte>, size: nat, s: nat, n: nat)
    requires size > 0 && s <= n < |t|
    ensures HardEnd(t, size, s) <= HardEnd(t, size, n)
  {
    CeilMonotone(t, Min(s + size, |t|), Min(n + size, |t|));
  }

  lemma EndsNeverGoBack(t: seq<byte>, size: nat, overlap: nat, s: nat)
    requires size > 0 && s < |t| && End(t, size, s) < |t|
    ensures var n := Next(t, size, overlap, s);
      End(t, size, s) <= End(t, size, n) && (n == End(t, size, s) ==> End(t, size, s) < End(t, size, n))
  {
    var e, h, n := End(t, size, s), HardEnd(t, size, s), Next(t, size, overlap, s);
    var g := HardEnd(t, size, n);
    HardEndsGrow(t, size, s, n);
    if n < e && g < |t| {
      var newline, blank := Last(t, NEWLINE, n, g), Last(t, SPACE, n, g);
      if Last(t, NEWLINE, s, h).Some? {
        LastIsLast(t, NEWLINE, n, g, e - 1);
      } else if newline.Some? && newline.value < h {
        LastIsLast(t, NEWLINE, s, h, newline.value);
      } else if newline.None? && Last(t, SPACE, s, h).Some? {
        LastIsLast(t, SPACE, n, g, e - 1);
      } else if newline.None? && blank.Some? && blank.value < h {
        LastIsLast(t, SPACE, s, h, blank.value);
      }
    }
  }

  /** Two windows may share an end; the third is past it. */
  lemma NoThirdWindowSharesAnEnd(t: seq<byte>, size: nat, overlap: nat, s: nat)
    requires size > 0 && s < |t| && End(t, size, s) < |t|
    requires End(t, size, Next(t, size, overlap, s)) < |t|
    ensures var n := Next(t, size, overlap, s);
      End(t, size, s) < End(t, size, Next(t, size, overlap, n))
  {
    var n := Next(t, size, overlap, s);
    EndsNeverGoBack(t, size, overlap, s);
    EndsNeverGoBack(t, size, overlap, n);
  }

  /** Along a run ends never decrease and no three consecutive windows share one. */
  lemma RunEndsGrow(t: seq<byte>, size: nat, overlap: nat, ws: seq<Window>, i: nat)
    requires size > 0 && Chained(t, size, overlap, 0, ws) && i + 1 < |ws|
    ensures ws[i].end <= ws[i + 1].end
    ensures i + 2 < |ws| ==> ws[i].end < ws[i + 2].end
  {
    assert Follows(t, size, overlap, ws[i + 1 - 1], ws[i + 1]);
    EndsNeverGoBack(t, size, overlap, ws[i].start);
    if i + 2 < |ws| {
      assert Follows(t, size, overlap, ws[i + 2 - 1], ws[i + 2]);
      NoThirdWindowSharesAnEnd(t, size, overlap, ws[i].start);
    }
  }

  /** The windows tile the text without a gap, on character boundaries, each at most
      three bytes over the size. */
  lemma WindowsTileTheText(t: seq<byte>, size: nat, overlap: nat, i: nat)
    requires size > 0 && Spaced(t) && i < |Windows(t, size, overlap, 0)|
    ensures var ws := Windows(t, size, overlap, 0);
      && Sliceable(t, ws[i]) && ws[i].start < ws[i].end <= ws[i].start + size + 3
      && (if i == 0 then ws[i].start == 0 else ws[i - 1].start < ws[i].start <= ws[i - 1].end)
      && (i == |ws| - 1 <==> ws[i].end == |t|)
  {
    var ws := Windows(t, size, overlap, 0);
    WindowsAreChained(t, size, overlap, 0);
    StartIsBoundary(t, size, overlap, ws, i);
    EndIsBoundary(t, size, ws[i].start);
    assert i > 0 ==> Follows(t, size, overlap, ws[i - 1], ws[i]);
    assert i + 1 < |ws| ==> Follows(t, size, overlap, ws[i + 1 - 1], ws[i + 1]);
  }

  // ---- Progress ----------------------------------------------------------------

  function StepBack(t: seq<byte>, overlap: nat, e: nat): nat {
    Floor(t, if e > overlap then e - overlap else 0)
  }

  /** How many more windows can end before `h` once one starts at `s`: at most two
      at the last line break before `h`, then two at the last space. */
  function Delay(t: seq<byte>, overlap: nat, h: nat, s: nat): (r: nat)
    requires s <= h <= |t|
    ensures 1 <= r <= 5
  {
    var newline, blank := Last(t, NEWLINE, s, h), Last(t, SPACE, s, h);
    if newline.Some? then (if StepBack(t, overlap, newline.value + 1) > s then 5 else 4)
    else if blank.Some? then (if StepBack(t, overlap, blank.value + 1) > s then 3 else 2)
    else 1
  }

  lemma LastAgrees(t: seq<byte>, b: byte, lo: nat, h: nat, hi: nat)
    requires lo <= h <= hi <= |t|
    requires Last(t, b, lo, hi).None? || Last(t, b, lo, hi).value < h
    ensures Last(t, b, lo, h) == Last(t, b, lo, hi)
  {
  }

  lemma LastFromLater(t: seq<byte>, b: byte, lo: nat, n: nat, hi: nat)
    requires lo <= n <= hi <= |t|
    ensures var p := Last(t, b, lo, hi);
      Last(t, b, n, hi) == if p.Some? && p.value >= n then p else None
  {
  }

  lemma DelayDrops(t: seq<byte>, size: nat, overlap: nat, h: nat, s: nat)
    requires size > 0 && s < h <= |t| && h <= HardEnd(t, size, s) && End(t, size, s) < h
    ensures Delay(t, overlap, h, Next(t, size, overlap, s)) < Delay(t, overlap, h, s)
  {
    var g, n := HardEnd(t, size, s), Next(t, size, overlap, s);
    var newline, blank := Last(t, NEWLINE, s, g), Last(t, SPACE, s, g);
    LastAgrees(t, NEWLINE, s, h, g);
    LastFromLater(t, NEWLINE, s, n, h);
    LastFromLater(t, SPACE, s, n, h);
    if newline.None? {
      LastAgrees(t, SPACE, s, h, g);
    }
  }

  /** Among the windows from `i` on, one of the next `Delay` ends at or past `h`. */
  lemma {:induction false} SomeEndReaches(t: seq<byte>, size: nat, overlap: nat, ws: seq<Window>, i: nat, h: nat)
      returns (j: nat)
    requires size > 0 && Chained(t, size, overlap, 0, ws) && i < |ws|
    requires ws[i].start < h <= HardEnd(t, size, ws[i].start)
    ensures i <= j < i + Delay(t, overlap, h, ws[i].start) && (j < |ws| ==> ws[j].end >= h)
    decreases |ws| - i
  {
    j := i;
    if ws[i].end < h {
      DelayDrops(t, size, overlap, h, ws[i].start);
      assert i + 1 < |ws|;
      assert Follows(t, size, overlap, ws[i + 1 - 1], ws[i + 1]);
      HardEndsGrow(t, size, ws[i].start, ws[i + 1].start);
      j := SomeEndReaches(t, size, overlap, ws, i + 1, h);
    }
  }

  lemma {:induction false} StartsGrow(t: seq<byte>, size: nat, overlap: nat, ws: seq<Window>, i: nat, j: nat)
    requires size > 0 && Chained(t, size, overlap, 0, ws) && i <= j < |ws|
    ensures ws[i].start + (j - i) <= ws[j].start
  {
    if i < j {
      StartsGrow(t, size, overlap, ws, i, j - 1);
      assert Follows(t, size, overlap, ws[j - 1], ws[j]);
    }
  }

  lemma NextStartIsNear(t: seq<byte>, size: nat, overlap: nat, ws: seq<Window>, j: nat)
    requires size > 0 && Spaced(t) && Chained(t, size, overlap, 0, ws) && j + 1 < |ws|
    ensures ws[j + 1].start >= ws[j].end - overlap - 3
  {
    assert Follows(t, size, overlap, ws[j + 1 - 1], ws[j + 1]);
    RoundingIsShort(t, if ws[j].end > overlap then ws[j].end - overlap else 0);
  }

  /** Any five consecutive windows move the start by at least size - overlap - 3. */
  lemma FiveWindowsAdvance(t: seq<byte>, size: nat, overlap: nat, ws: seq<Window>, i: nat)
    requires size > 0 && Spaced(t) && Chained(t, size, overlap, 0, ws) && i + 5 < |ws|
    ensures ws[i + 5].start >= ws[i].start + size - overlap - 3
  {
    var s := ws[i].start;
    var h := HardEnd(t, size, s);
    assert Follows(t, size, overlap, ws[i + 1 - 1], ws[i + 1]);
    var j := SomeEndReaches(t, size, overlap, ws, i, h);
    NextStartIsNear(t, size, overlap, ws, j);
    StartsGrow(t, size, overlap, ws, j + 1, i + 5);
  }

  /** Hence every start is bounded below by a linear function of its index. */
  lemma {:induction false} StartsAreLinear(t: seq<byte>, size: nat, overlap: nat, ws: seq<Window>, d: nat, k: nat)
    requires size > 0 && Spaced(t) && Chained(t, size, overlap, 0, ws) && 5 * k < |ws|
    requires d == size - overlap - 3
    ensures k * d <= ws[5 * k].start
  {
    if k > 0 {
      StartsAreLinear(t, size, overlap, ws, d, k - 1);
      FiveWindowsAdvance(t, size, overlap, ws, 5 * k - 5);
      Distributes(k - 1, d);
    }
  }

  lemma Distributes(k: int, d: int)
    ensures (k + 1) * d == k * d + d
  {
  }

  lemma CountFromStarts(n: nat, k: nat, d: nat, size: nat, len: nat)
    requires n <= 5 * k + 5 && k * d <= len && size <= 5 * d
    ensures n * size <= 25 * len + 5 * size
  {
    Grows(size, 5 * d, k);
    Grows(n, 5 * k + 5, size);
    assert k * (5 * d) == 5 * (k * d);
    assert (5 * k + 5) * size == 5 * (k * size) + 5 * size;
  }

  lemma Grows(a: nat, b: nat, c: nat)
    requires a <= b
    ensures a * c <= b * c && c * a <= c * b
  {
  }

  /** Once the overlap is at most half the size, windows are linear in len / size. */
  lemma WindowCountIsLinear(t: seq<byte>, size: nat, overlap: nat)
    requires Spaced(t) && size >= MIN_CHUNK_SIZE && overlap <= size / 2
    ensures |Windows(t, size, overlap, 0)| * size <= 25 * |t| + 5 * size
  {
    var ws := Windows(t, size, overlap, 0);
    WindowsAreChained(t, size, overlap, 0);
    if ws != [] {
      var k, d := (|ws| - 1) / 5, size - overlap - 3;
      StartsAreLinear(t, size, overlap, ws, d, k);
      CountFromStarts(|ws|, k, d, size, |t|);
    }
  }

  lemma {:induction false} NoMoreChunksThanWindows(ws: seq<Window>, bodies: seq<string>, n: nat)
    requires n <= |ws| == |bodies|
    ensures |Collect(ws, bodies, n)| <= n
    ensures |Collect(ws, bodies, n)| == n <==> forall i | 0 <= i < n :: bodies[i] != []
  {
    if n > 0 {
      NoMoreChunksThanWindows(ws, bodies, n - 1);
    }
  }

  /** The chunk count of a clamped call is linear in len / size for every text. */
  lemma ChunkCountIsLinear(text: string, size: nat, overlap: nat)
    ensures var (csize, coverlap) := ClampChunkParams(size, overlap);
      var ws := Windows(Encode(text), csize, coverlap, 0);
      && AllSliceable(Encode(text), ws)
      && |ChunksOf(text, ws)| * csize <= 25 * |Encode(text)| + 5 * csize
  {
    var (csize, coverlap) := ClampChunkParams(size, overlap);
    var t := Encode(text);
    var ws := Windows(t, csize, coverlap, 0);
    EncodedIsSpaced(text);
    WindowsAreSliceable(t, csize, coverlap);
    WindowCountIsLinear(t, csize, coverlap);
    NoMoreChunksThanWindows(ws, Bodies(text, ws), |ws|);
    Grows(|ChunksOf(text, ws)|, |ws|, csize);
  }

  // ---- The advance the documentation promises -----------------------------------

  /** Some character boundary at or after `from` lies in `s + 1..to`. */
  ghost predicate RoomToStepBack(t: seq<byte>, s: nat, to: int, from: nat)
    requires to <= |t|
  {
    exists k | s < k <= to :: k >= from && Boundary(t, k)
  }

  /** Where a window is cut. */
  function Cut(t: seq<byte>, size: nat, s: nat): (cut: nat)
    requires s < |t| && size > 0
    ensures cut <= |t|
  {
    var h := HardEnd(t, size, s);
    var brk := LastBreak(t, s, h);
    if h < |t| && brk.Some? then brk.value + 1 else h
  }

  ghost predicate RoomForHalf(t: seq<byte>, size: nat, overlap: nat, s: nat)
    requires s < |t| && size > 0
  {
    var cut, half := Cut(t, size, s), s + size / 2;
    || RoomToStepBack(t, s, cut - overlap, half)
    || (!RoomToStepBack(t, s, cut - overlap, s) && cut >= half)
  }

  /** A window advances by size / 2 exactly when, counted from the cut, the overlap can be
      stepped back to a character boundary that far in, or cannot be stepped back at all
      and the cut itself is that far in. The cut is after the last newline, else the last
      space, of the budget, or at the hard end. */
  lemma HalfAdvanceExactly(t: seq<byte>, size: nat, overlap: nat, s: nat)
    requires s < |t| && size > 0
    ensures Next(t, size, overlap, s) >= s + size / 2 <==> RoomForHalf(t, size, overlap, s)
  {
    var e, n := End(t, size, s), Next(t, size, overlap, s);
    NextWindowStepsBackTheOverlap(t, size, overlap, s);
    if RoomToStepBack(t, s, e - overlap, s) {
      assert exists k | s < k <= e - overlap :: Boundary(t, k);
    }
  }

  ghost predicate AdvancesHalf(t: seq<byte>, size: nat, overlap: nat, w: Window)
    requires size > 0
  {
    w.start < |t| && RoomForHalf(t, size, overlap, w.start)
  }

  lemma {:induction false} HalfStartsAreLinear(t: seq<byte>, size: nat, overlap: nat, ws: seq<Window>, i: nat)
    requires size > 0 && Chained(t, size, overlap, 0, ws) && i < |ws|
    requires forall j | 0 <= j < i :: AdvancesHalf(t, size, overlap, ws[j])
    ensures i * (size / 2) <= ws[i].start
  {
    if i > 0 {
      HalfStartsAreLinear(t, size, overlap, ws, i - 1);
      assert Follows(t, size, overlap, ws[i - 1], ws[i]);
      assert AdvancesHalf(t, size, overlap, ws[i - 1]);
      HalfAdvanceExactly(t, size, overlap, ws[i - 1].start);
      Distributes(i - 1, size / 2);
    }
  }

  /** The documented count, where the documented advance holds: if every window but the last
      meets that condition, there are at most len / (size / 2) windows and one. */
  lemma HalfAdvancesBoundTheCount(t: seq<byte>, size: nat, overlap: nat, ws: seq<Window>)
    requires size > 0 && ws == Windows(t, size, overlap, 0)
    requires forall i | 0 <= i < |ws| - 1 :: AdvancesHalf(t, size, overlap, ws[i])
    ensures (|ws| - 1) * (size / 2) <= |t|
  {
    WindowsAreChained(t, size, overlap, 0);
    if ws != [] {
      HalfStartsAreLinear(t, size, overlap, ws, |ws| - 1);
    }
  }

  /** Twelve characters of two bytes each. */
  predicate Wide(text: string) {
    |text| == 12 && forall i | 0 <= i < 12 :: 0x80 <= text[i] as int < 0x800
  }

  lemma WideChar(c: char)
    requires 0x80 <= c as int < 0x800
    ensures var e := EncodeChar(c);
      |e| == 2 && e[0] >= 0x80 && !Continuation(e[0]) && Continuation(e[1])
  {
  }

  /** Leading and continuation bytes in turn. */
  predicate InTurn(t: seq<byte>, i: nat)
    requires i < |t|
  {
    t[i] >= 0x80 && (Continuation(t[i]) <==> i % 2 == 1)
  }

  lemma {:induction false} WideBytes(text: string)
    requires forall i | 0 <= i < |text| :: 0x80 <= text[i] as int < 0x800
    ensures |Encode(text)| == 2 * |text|
    ensures forall i | 0 <= i < |Encode(text)| :: InTurn(Encode(text), i)
  {
    if text != [] {
      var rest := Encode(text[1..]);
      WideBytes(text[1..]);
      WideChar(text[0]);
      forall i | 2 <= i < |Encode(text)| ensures InTurn(Encode(text), i) {
        assert InTurn(rest, i - 2) && Encode(text)[i] == rest[i - 2];
      }
    }
  }

  /** Without any break the promise fails too: with characters of two bytes the step back
      rounds down past the half. */
  lemma WideTextFallsShort(text: string)
    requires Wide(text)
    ensures ClampChunkParams(10, 5) == (10, 5) && |Encode(text)| == 24
    ensures Without(Encode(text), NEWLINE, 0, 24) && Without(Encode(text), SPACE, 0, 24)
    ensures Next(Encode(text), 10, 5, 0) == 4 < 10 / 2
  {
    var t := Encode(text);
    WideBytes(text);
    assert InTurn(t, 10) && InTurn(t, 5) && InTurn(t, 4);
    forall i | 0 <= i < 24 ensures t[i] >= 0x80 {
      assert InTurn(t, i);
    }
    assert Boundary(t, 10) && !Boundary(t, 5) && Boundary(t, 4);
    assert HardEnd(t, 10, 0) == 10;
    LastIsNone(t, NEWLINE, 0, 10);
    LastIsNone(t, SPACE, 0, 10);
    assert End(t, 10, 0) == 10;
    assert Floor(t, 5) == 4;
  }

  predicate SingleByte(t: seq<byte>) {
    forall i | 0 <= i < |t| :: t[i] < 0x80
  }

  /** In single-byte text a window that is not the last advances by size / 2 exactly
      when it has no line break or space, or its last one lies at least
      size / 2 + overlap bytes in (or ends at size / 2 == overlap, where the loop
      resumes at the cut itself). */
  lemma HalfAdvanceInPlainText(t: seq<byte>, size: nat, overlap: nat, s: nat)
    requires SingleByte(t) && s + size < |t| && 0 < size && overlap <= size / 2
    ensures HardEnd(t, size, s) == s + size
    ensures var cut := LastBreak(t, s, s + size);
      Next(t, size, overlap, s) >= s + size / 2
      <==> (cut.None? || cut.value + 1 - s >= size / 2 + overlap
            || cut.value + 1 - s == size / 2 == overlap)
  {
    assert Boundary(t, s + size);
    var e := End(t, size, s);
    assert e > overlap ==> Boundary(t, e - overlap);
  }

  /** "aa", a line break, "aa", a space, and eleven more letters. */
  predicate Dense(text: string) {
    |text| == 17 && forall i | 0 <= i < 17 :: text[i] == if i == 2 then '\n' else if i == 5 then ' ' else 'a'
  }

  predicate DenseBytes(t: seq<byte>) {
    |t| == 17 && forall i | 0 <= i < 17 :: t[i] == if i == 2 then NEWLINE else if i == 5 then SPACE else 97
  }

  const DENSE_WINDOWS :=
    [Window(0, 3), Window(1, 3), Window(3, 6), Window(4, 6), Window(6, 16), Window(14, 17)]

  lemma LastIs(t: seq<byte>, b: byte, lo: nat, hi: nat, p: nat)
    requires lo <= p < hi <= |t| && t[p] == b && forall i | p < i < hi :: t[i] != b
    ensures Last(t, b, lo, hi) == Some(p)
  {
    LastIsLast(t, b, lo, hi, p);
  }

  lemma LastIsNone(t: seq<byte>, b: byte, lo: nat, hi: nat)
    requires lo <= hi <= |t| && forall i | lo <= i < hi :: t[i] != b
    ensures Last(t, b, lo, hi) == None
  {
  }

  lemma DenseStep(t: seq<byte>, s: nat)
    requires DenseBytes(t) && s in {0, 1, 3, 4, 6}
    ensures Next(t, 10, 2, s) == (match s case 0 => 1 case 1 => 3 case 3 => 4 case 4 => 6 case _ => 14)
    ensures End(t, 10, s) == (match s case 0 => 3 case 1 => 3 case 3 => 6 case 4 => 6 case _ => 16)
  {
    assert Boundary(t, s + 10) && HardEnd(t, 10, s) == s + 10;
    if s <= 2 {
      LastIs(t, NEWLINE, s, s + 10, 2);
    } else {
      LastIsNone(t, NEWLINE, s, s + 10);
      if s <= 5 {
        LastIs(t, SPACE, s, s + 10, 5);
      } else {
        LastIsNone(t, SPACE, s, s + 10);
      }
    }
    var e := End(t, 10, s);
    assert Boundary(t, e - 2);
  }

  lemma DenseWindows(t: seq<byte>)
    requires DenseBytes(t)
    ensures Windows(t, 10, 2, 0) == DENSE_WINDOWS
  {
    assert End(t, 10, 14) == 17;
    assert Windows(t, 10, 2, 14) == [Window(14, 17)];
    DenseStep(t, 6);
    assert Windows(t, 10, 2, 6) == [Window(6, 16), Window(14, 17)];
    DenseStep(t, 4);
    assert Windows(t, 10, 2, 4) == [Window(4, 6), Window(6, 16), Window(14, 17)];
    DenseStep(t, 3);
    assert Windows(t, 10, 2, 3) == [Window(3, 6), Window(4, 6), Window(6, 16), Window(14, 17)];
    DenseStep(t, 1);
    DenseStep(t, 0);
  }

  lemma {:induction false} PlainText(s: string, k: nat)
    requires forall i | 0 <= i < |s| :: s[i] as int < 0x80
    requires k <= |s|
    ensures |Encode(s)| == |s| && Offset(s, k) == k
    ensures forall i | 0 <= i < |s| :: Encode(s)[i] == s[i] as int
  {
    if s != [] {
      PlainText(s[1..], if k == 0 then 0 else k - 1);
    }
  }

  /** Windows of plain text that start with a visible character all become chunks. */
  lemma InkyWindows(text: string, ws: seq<Window>)
    requires (forall i | 0 <= i < |text| :: text[i] as int < 0x80) && AllSliceable(Encode(text), ws)
    requires forall i | 0 <= i < |ws| ::
      ws[i].start < ws[i].end && ws[i].start < |text| && !White(text[ws[i].start])
    ensures |ChunksOf(text, ws)| == |ws|
  {
    var bodies := Bodies(text, ws);
    forall i | 0 <= i < |ws| ensures bodies[i] != [] {
      PlainText(text, ws[i].start);
      assert Sliceable(Encode(text), ws[i]);
      var lo, hi := BodyHasInk(text, ws[i], ws[i].start);
    }
    NoMoreChunksThanWindows(ws, bodies, |ws|);
  }

  /** Two windows end at the line break, two at the space, one runs the full size:
      for parameters that are already clamped the loop makes six chunks of 17 bytes,
      over the documented 2 * len / size + 2, and its first window advances one byte
      where size / 2 is promised. */
  lemma DenseBreaksTheBound(text: string)
    requires Dense(text)
    ensures ClampChunkParams(10, 2) == (10, 2)
    ensures |Encode(text)| == 17 && Next(Encode(text), 10, 2, 0) == 1
    ensures var ws := Windows(Encode(text), 10, 2, 0);
      AllSliceable(Encode(text), ws) && |ChunksOf(text, ws)| == 6 > 2 * 17 / 10 + 2
  {
    PlainText(text, 0);
    EncodedIsSpaced(text);
    var t := Encode(text);
    DenseWindows(t);
    DenseStep(t, 0);
    WindowsAreSliceable(t, 10, 2);
    InkyWindows(text, DENSE_WINDOWS);
  }

  lemma SuchTexts() returns (dense: string, wide: string)
    ensures Dense(dense) && Wide(wide)
  {
    dense, wide := "aa\naa aaaaaaaaaaa", seq(12, _ => 0x100 as char);
  }

  /** So both promises fail on some text: the count and the advance without a break. */
  lemma DocumentedBoundsFail() returns (dense: string, wide: string)
    ensures |Encode(dense)| == 17 && |Encode(wide)| == 24 && Next(Encode(wide), 10, 5, 0) == 4
    ensures var ws := Windows(Encode(dense), 10, 2, 0);
      AllSliceable(Encode(dense), ws) && |ChunksOf(dense, ws)| == 6 > 2 * 17 / 10 + 2
  {
    dense, wide := SuchTexts();
    DenseBreaksTheBound(dense);
    WideTextFallsShort(wide);
  }
}
