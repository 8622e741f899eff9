/** The capped line reader of the stdio server (`src/mcp/mod.rs`): lines are cut out of
    whatever pieces the stream arrives in. */
module LineReader {
  import opened Seqs
  import opened Utf8

  const MCP_MAX_LINE_BYTES := 1024 * 1024

  type Bytes = seq<byte>

  /** How the stream ends once its bytes are used up: end of file, or a read error. */
  datatype Ending = Eof | Broken

  // ---- Lines of a whole stream ------------------------------------------------------------

  predicate Plain(s: Bytes) {
    NEWLINE !in s
  }

  /** A line: no newline but possibly at the end. */
  predicate OneLine(s: Bytes) {
    s != [] && Plain(s[..|s| - 1])
  }

  predicate Complete(s: Bytes) {
    OneLine(s) && s[|s| - 1] == NEWLINE
  }

  /** The length of the first line of `s`, newline included. */
  function FirstLine(s: Bytes): (n: nat)
    ensures n <= |s| && (s != [] ==> OneLine(s[..n]))
    ensures n < |s| ==> Complete(s[..n])
  {
    if s == [] then 0
    else if s[0] == NEWLINE then 1
    else
      var n := 1 + FirstLine(s[1..]);
      assert s[..n] == [s[0]] + s[1..][..n - 1];
      n
  }

  /** The stream split after each newline. */
  function Split(s: Bytes): (lines: seq<Bytes>)
    decreases |s|
  {
    if s == [] then [] else [s[..FirstLine(s)]] + Split(s[FirstLine(s)..])
  }

  /** Lines, all but the last complete. */
  ghost predicate Lines(lines: seq<Bytes>) {
    && (forall l <- lines :: OneLine(l))
    && forall i | 0 <= i < |lines| - 1 :: Complete(lines[i])
  }

  lemma {:induction false} SplitSplits(s: Bytes)
    ensures Lines(Split(s)) && Flatten(Split(s)) == s
    decreases |s|
  {
    if s != [] {
      var n := FirstLine(s);
      SplitSplits(s[n..]);
      FlattenCons(s[..n], Split(s[n..]));
      assert s == s[..n] + s[n..];
      assert n == |s| ==> s[n..] == [];
    }
  }

  /** The first line is fixed by where the first newline is. */
  lemma {:induction false} FirstLineOf(l: Bytes, rest: Bytes)
    requires OneLine(l) && (rest == [] || Complete(l))
    ensures FirstLine(l + rest) == |l|
  {
    var s := l + rest;
    assert s[0] == l[0];
    if |l| == 1 {
      assert l[0] != NEWLINE ==> s[1..] == [];
    } else {
      assert s[1..] == l[1..] + rest;
      assert l[..|l| - 1][0] == l[0];
      assert l[1..][..|l| - 2] == l[..|l| - 1][1..];
      FirstLineOf(l[1..], rest);
    }
  }

  /** Any way of writing `s` as lines is `Split(s)`. */
  lemma {:induction false} SplitIsUnique(lines: seq<Bytes>)
    requires Lines(lines)
    ensures Split(Flatten(lines)) == lines
    decreases |lines|
  {
    if lines != [] {
      var l, rest := lines[0], lines[1..];
      assert lines == [l] + rest;
      FlattenCons(l, rest);
      assert Lines(rest) by {
        assert forall x <- rest :: x in lines;
        assert forall i | 0 <= i < |rest| - 1 :: rest[i] == lines[i + 1];
      }
      SplitIsUnique(rest);
      assert |lines| > 1 ==> Complete(lines[0]);
      FirstLineOf(l, Flatten(rest));
      var s := l + Flatten(rest);
      assert s[..|l|] == l && s[|l|..] == Flatten(rest);
    }
  }

  // ---- What reading line by line should give ----------------------------------------------

  datatype Outcome = Line(line: Bytes) | Closed | TooLong | Failed

  predicate Fits(l: Bytes, cap: nat) {
    |l| <= cap
  }

  /** The lines served and how serving ends: at the first line over the cap, or at the end
      of the stream. A partial last line counts at end of file and is lost on an error. */
  ghost predicate Serves(s: Bytes, ending: Ending, cap: nat, served: seq<Bytes>, last: Outcome) {
    var lines := Split(s);
    var k := |served|;
    && k <= |lines| && served == lines[..k]
    && (forall l <- served :: Fits(l, cap))
    && match last
       case Line(_) => false
       case TooLong => k < |lines| && !Fits(lines[k], cap)
       case Closed => ending == Eof && k == |lines|
       case Failed =>
         && ending == Broken
         && (forall l <- served :: Complete(l))
         && (k == |lines| || (k == |lines| - 1 && Fits(lines[k], cap) && !Complete(lines[k])))
  }

  /** One call on the remaining stream. */
  function Read(s: Bytes, ending: Ending, cap: nat): Outcome {
    var l := s[..FirstLine(s)];
    if |l| > cap then TooLong
    else if l != [] && l[|l| - 1] == NEWLINE then Line(l)
    else if ending == Broken then Failed
    else if l == [] then Closed else Line(l)
  }

  lemma {:induction false} ServesNext(s: Bytes, ending: Ending, cap: nat, served: seq<Bytes>, last: Outcome)
    requires s != [] && Serves(s[FirstLine(s)..], ending, cap, served, last)
    requires Read(s, ending, cap) == Line(s[..FirstLine(s)])
    ensures Serves(s, ending, cap, [s[..FirstLine(s)]] + served, last)
  {
    var n := FirstLine(s);
    var lines, rest := Split(s), Split(s[n..]);
    var k := |served|;
    assert lines == [s[..n]] + rest;
    assert lines[..k + 1] == [s[..n]] + rest[..k];
    assert k < |rest| ==> lines[k + 1] == rest[k];
  }

  /** How serving ends is fixed by the stream: with an over-long line exactly when there is
      one, whatever comes after it. */
  lemma {:induction false} ServesIsDetermined(s: Bytes, ending: Ending, cap: nat, a: seq<Bytes>, x: Outcome,
                                              b: seq<Bytes>, y: Outcome)
    requires Serves(s, ending, cap, a, x) && Serves(s, ending, cap, b, y)
    ensures a == b && x == y
    ensures x == TooLong <==> exists l <- Split(s) :: !Fits(l, cap)
  {
    var lines := Split(s);
    SplitSplits(s);
    OneStops(s, ending, cap, a, x, b, y);
    OneStops(s, ending, cap, b, y, a, x);
    assert x.TooLong? ==> lines[|a|] in lines;
    if !x.TooLong? {
      forall l <- lines ensures Fits(l, cap) {
        var i :| 0 <= i < |lines| && lines[i] == l;
        assert i < |a| ==> a[i] in a;
      }
    }
  }

  lemma OneStops(s: Bytes, ending: Ending, cap: nat, a: seq<Bytes>, x: Outcome, b: seq<Bytes>, y: Outcome)
    requires Serves(s, ending, cap, a, x) && Serves(s, ending, cap, b, y) && Lines(Split(s))
    ensures |a| >= |b|
  {
    var lines := Split(s);
    assert forall i | 0 <= i < |b| :: b[i] in b && b[i] == lines[i];
    assert y.Failed? ==> forall i | 0 <= i < |b| :: Complete(b[i]);
  }

  // ---- The reader -------------------------------------------------------------------------

  /** A buffered reader: what is left of the chunk in hand, and the chunks still to come,
      none empty and none larger than `most`. */
  class BufReader {
    var inHand: Bytes
    var coming: seq<Bytes>
    const ending: Ending
    const most: nat

    constructor (chunks: seq<Bytes>, ending: Ending, most: nat)
      requires forall c <- chunks :: 0 < |c| <= most
      ensures Valid() && Rest() == Flatten(chunks) && this.ending == ending && this.most == most
    {
      inHand, coming := [], chunks;
      this.ending, this.most := ending, most;
    }

    ghost predicate Valid()
      reads this
    {
      |inHand| <= most && forall c <- coming :: 0 < |c| <= most
    }

    /** Everything not yet consumed. */
    ghost function Rest(): Bytes
      reads this
    {
      inHand + Flatten(coming)
    }

    /** `fill_buf`: fetch a chunk if none is in hand; empty only at the end. */
    method FillBuf() returns (chunk: Bytes)
      requires Valid()
      modifies this
      ensures Valid() && Rest() == old(Rest()) && chunk == inHand <= Rest()
      ensures chunk == [] <==> Rest() == []
    {
      if inHand == [] && coming != [] {
        assert coming == [coming[0]] + coming[1..];
        FlattenCons(coming[0], coming[1..]);
        inHand, coming := coming[0], coming[1..];
      }
      chunk := inHand;
    }

    method Consume(n: nat)
      requires Valid() && n <= |inHand|
      modifies this
      ensures Valid() && Rest() == old(Rest())[n..] && inHand == old(inHand)[n..]
    {
      inHand := inHand[n..];
    }
  }

  method Position(chunk: Bytes) returns (end: nat, complete: bool)
    ensures complete ==> 0 < end <= |chunk| && chunk[end - 1] == NEWLINE && Plain(chunk[..end - 1])
    ensures !complete ==> end == |chunk| && Plain(chunk)
  {
    for i := 0 to |chunk|
      invariant Plain(chunk[..i])
    {
      if chunk[i] == NEWLINE {
        return i + 1, true;
      }
    }
    return |chunk|, false;
  }

  /** The first line begins with any newline-free part of the stream. */
  lemma {:induction false} PlainPrefix(buf: Bytes, s: Bytes)
    requires buf <= s && Plain(buf)
    ensures |buf| <= FirstLine(s)
    ensures |buf| < |s| && s[|buf|] == NEWLINE ==> FirstLine(s) == |buf| + 1
    decreases |buf|
  {
    if buf != [] {
      assert buf[0] == s[0] && buf[0] in buf;
      PlainPrefix(buf[1..], s[1..]);
    }
  }

  lemma ReadsToTheEnd(s: Bytes, ending: Ending, cap: nat)
    requires Plain(s) && |s| <= cap
    ensures Read(s, ending, cap) == if ending == Broken then Failed else if s == [] then Closed else Line(s)
  {
    PlainPrefix(s, s);
    assert s[..|s|] == s;
  }

  /** What is decided once `buf` has been taken off the stream. */
  lemma ReadsSoFar(buf: Bytes, rest: Bytes, complete: bool, ending: Ending, cap: nat)
    requires if complete then Complete(buf) else Plain(buf)
    ensures |buf| > cap ==> Read(buf + rest, ending, cap) == TooLong
    ensures complete && |buf| <= cap ==> Read(buf + rest, ending, cap) == Line(buf)
  {
    var s := buf + rest;
    assert buf == s[..|buf|];
    if complete {
      PlainPrefix(buf[..|buf| - 1], s);
    } else {
      PlainPrefix(buf, s);
    }
  }

  /** One line. The answer depends on the stream alone, not on the chunks it came in; the
      buffer never holds more than the cap and one chunk. */
  method ReadCappedLine(reader: BufReader, cap: nat) returns (r: Outcome, ghost peak: nat)
    requires reader.Valid()
    modifies reader
    ensures reader.Valid() && peak <= cap + reader.most
    ensures r == Read(old(reader.Rest()), reader.ending, cap)
    ensures r.Line? ==> old(reader.Rest()) == r.line + reader.Rest()
  {
    var buf: Bytes := [];
    peak := 0;
    ghost var s := reader.Rest();
    while true
      invariant reader.Valid() && s == buf + reader.Rest()
      invariant Plain(buf) && |buf| <= cap && peak <= cap + reader.most
      decreases |reader.Rest()|
    {
      var chunk := reader.FillBuf();
      if chunk == [] {
        assert s == buf;
        ReadsToTheEnd(s, reader.ending, cap);
        r := if reader.ending == Broken then Failed else if buf == [] then Closed else Line(buf);
        return;
      }
      var end, complete := Position(chunk);
      Grows(s, buf, chunk, reader.Rest(), end, complete);
      buf := buf + chunk[..end];
      peak := if |buf| > peak then |buf| else peak;
      reader.Consume(end);
      ReadsSoFar(buf, reader.Rest(), complete, reader.ending, cap);
      if |buf| > cap {
        return TooLong, peak;
      }
      if complete {
        return Line(buf), peak;
      }
    }
  }

  lemma Grows(s: Bytes, buf: Bytes, chunk: Bytes, rest: Bytes, end: nat, complete: bool)
    requires s == buf + rest && chunk <= rest && Plain(buf) && end <= |chunk|
    requires if complete then end > 0 && chunk[end - 1] == NEWLINE && Plain(chunk[..end - 1])
             else end == |chunk| && Plain(chunk)
    ensures s == (buf + chunk[..end]) + rest[end..]
    ensures if complete then Complete(buf + chunk[..end]) else Plain(buf + chunk[..end])
  {
    assert rest == chunk[..end] + rest[end..];
    if complete {
      assert (buf + chunk[..end])[..|buf| + end - 1] == buf + chunk[..end - 1];
    }
  }

  /** The message loop: the lines handed on, and why it stopped. */
  method RunIo(reader: BufReader, cap: nat) returns (served: seq<Bytes>, last: Outcome)
    requires reader.Valid()
    modifies reader
    ensures Serves(old(reader.Rest()), reader.ending, cap, served, last)
  {
    served := [];
    ghost var s := reader.Rest();
    while true
      invariant reader.Valid()
      invariant Continues(s, reader.Rest(), reader.ending, cap, served)
      decreases |reader.Rest()|
    {
      ghost var rest := reader.Rest();
      var r, _ := ReadCappedLine(reader, cap);
      if !r.Line? {
        last := r;
        StopsHere(rest, reader.ending, cap);
        assert served + [] == served;
        return;
      }
      assert r.line == rest[..FirstLine(rest)] && reader.Rest() == rest[FirstLine(rest)..];
      ServedOneMore(s, rest, reader.ending, cap, served);
      served := served + [r.line];
    }
  }

  /** The server on its own stream. */
  method Run(reader: BufReader) returns (served: seq<Bytes>, last: Outcome)
    requires reader.Valid()
    modifies reader
    ensures Serves(old(reader.Rest()), reader.ending, MCP_MAX_LINE_BYTES, served, last)
  {
    served, last := RunIo(reader, MCP_MAX_LINE_BYTES);
  }

  /** However the rest is served, the whole is served with `done` in front. */
  ghost predicate Continues(s: Bytes, rest: Bytes, ending: Ending, cap: nat, done: seq<Bytes>) {
    forall more, last | Serves(rest, ending, cap, more, last) :: Serves(s, ending, cap, done + more, last)
  }

  lemma StopsHere(rest: Bytes, ending: Ending, cap: nat)
    requires !Read(rest, ending, cap).Line?
    ensures Serves(rest, ending, cap, [], Read(rest, ending, cap))
  {
    var lines := Split(rest);
    assert lines[..0] == [];
    if rest != [] {
      var n := FirstLine(rest);
      assert lines[0] == rest[..n];
      assert n == |rest| ==> rest[n..] == [];
    }
  }

  lemma ServedOneMore(s: Bytes, rest: Bytes, ending: Ending, cap: nat, done: seq<Bytes>)
    requires Continues(s, rest, ending, cap, done) && Read(rest, ending, cap).Line?
    ensures Continues(s, rest[FirstLine(rest)..], ending, cap, done + [rest[..FirstLine(rest)]])
  {
    var n := FirstLine(rest);
    forall more, last | Serves(rest[n..], ending, cap, more, last)
      ensures Serves(s, ending, cap, (done + [rest[..n]]) + more, last)
    {
      ServesNext(rest, ending, cap, more, last);
      assert (done + [rest[..n]]) + more == done + ([rest[..n]] + more);
    }
  }
}
