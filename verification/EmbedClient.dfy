/** The embeddings client (`src/embed/client.rs`): one chunk's reply is sorted by its
    labels and checked; the chunks of a call run as concurrent tasks whose results are
    put back in chunk order. */
module EmbedClient {
  import opened Seqs
  import opened Wrappers

  type Vector = seq<real>

  datatype EmbedData = EmbedData(index: nat, embedding: Vector)

  datatype EmbedError = Http | Misaligned | TaskPanicked

  // ---- One chunk -------------------------------------------------------------------

  predicate SortedByIndex(s: seq<EmbedData>) {
    forall i, j | 0 <= i < j < |s| :: s[i].index <= s[j].index
  }

  function Insert(d: EmbedData, s: seq<EmbedData>): (r: seq<EmbedData>) {
    if s == [] || d.index <= s[0].index then [d] + s else [s[0]] + Insert(d, s[1..])
  }

  /** The stable sort by label. */
  function Sort(s: seq<EmbedData>): seq<EmbedData> {
    if s == [] then [] else Insert(s[0], Sort(s[1..]))
  }

  lemma {:induction false} InsertKeeps(d: EmbedData, s: seq<EmbedData>)
    ensures multiset(Insert(d, s)) == multiset(s) + multiset{d}
  {
    if s != [] && d.index > s[0].index {
      InsertKeeps(d, s[1..]);
      assert s == [s[0]] + s[1..];
    }
  }

  lemma {:induction false} InsertSorts(d: EmbedData, s: seq<EmbedData>, low: nat)
    requires SortedByIndex(s) && d.index >= low && (s != [] ==> s[0].index >= low)
    ensures SortedByIndex(Insert(d, s)) && Insert(d, s)[0].index >= low
  {
    if s != [] && d.index > s[0].index {
      InsertSorts(d, s[1..], s[0].index);
      SortedCons(s[0], Insert(d, s[1..]));
    }
  }

  lemma SortedCons(d: EmbedData, s: seq<EmbedData>)
    requires SortedByIndex(s) && s != [] && d.index <= s[0].index
    ensures SortedByIndex([d] + s)
  {
    assert forall i | 0 < i < |s| :: s[0].index <= s[i].index;
  }

  lemma {:induction false} SortKeeps(s: seq<EmbedData>)
    ensures multiset(Sort(s)) == multiset(s)
  {
    if s != [] {
      SortKeeps(s[1..]);
      InsertKeeps(s[0], Sort(s[1..]));
      assert s == [s[0]] + s[1..];
    }
  }

  lemma {:induction false} SortIsSorted(s: seq<EmbedData>)
    ensures SortedByIndex(Sort(s))
  {
    if s != [] {
      SortIsSorted(s[1..]);
      InsertSorts(s[0], Sort(s[1..]), 0);
    }
  }

  lemma SortSorts(s: seq<EmbedData>)
    ensures SortedByIndex(Sort(s)) && multiset(Sort(s)) == multiset(s) && |Sort(s)| == |s|
  {
    SortKeeps(s);
    SortIsSorted(s);
    assert |multiset(Sort(s))| == |multiset(s)|;
  }

  predicate InPlace(s: seq<EmbedData>) {
    forall i | 0 <= i < |s| :: s[i].index == i
  }

  method CheckEmbedIndices(sorted: seq<EmbedData>) returns (r: Result<(), EmbedError>)
    ensures r.Ok? <==> InPlace(sorted)
    ensures r.Err? ==> r.error == Misaligned
  {
    for i := 0 to |sorted|
      invariant InPlace(sorted[..i])
    {
      if sorted[i].index != i {
        return Err(Misaligned);
      }
      assert sorted[..i + 1] == sorted[..i] + [sorted[i]];
    }
    assert sorted[..|sorted|] == sorted;
    r := Ok(());
  }

  function Vectors(s: seq<EmbedData>): (vs: seq<Vector>)
    ensures |vs| == |s| && forall i | 0 <= i < |s| :: vs[i] == s[i].embedding
  {
    if s == [] then [] else [s[0].embedding] + Vectors(s[1..])
  }

  /** Sort, check, take the vectors; `Http` stands for every failure before that. */
  function EmbedChunk(reply: Result<seq<EmbedData>, EmbedError>): Result<seq<Vector>, EmbedError> {
    if reply.Err? then Err(reply.error)
    else
      var sorted := Sort(reply.value);
      if InPlace(sorted) then Ok(Vectors(sorted)) else Err(Misaligned)
  }

  /** The labels of a reply, in the order they came. */
  function Labels(s: seq<EmbedData>): (r: seq<nat>)
    ensures |r| == |s| && forall i | 0 <= i < |s| :: r[i] == s[i].index
  {
    if s == [] then [] else [s[0].index] + Labels(s[1..])
  }

  function UpTo(n: nat): (r: seq<nat>)
    ensures |r| == n && forall i | 0 <= i < n :: r[i] == i
  {
    if n == 0 then [] else UpTo(n - 1) + [n - 1]
  }

  predicate Ascending(s: seq<nat>) {
    forall i, j | 0 <= i < j < |s| :: s[i] <= s[j]
  }

  lemma {:induction false} InsertKeepsLabels(d: EmbedData, s: seq<EmbedData>)
    ensures multiset(Labels(Insert(d, s))) == multiset(Labels(s)) + multiset{d.index}
  {
    if s != [] && d.index > s[0].index {
      InsertKeepsLabels(d, s[1..]);
    }
  }

  lemma {:induction false} SortKeepsLabels(s: seq<EmbedData>)
    ensures multiset(Labels(Sort(s))) == multiset(Labels(s))
  {
    if s != [] {
      SortKeepsLabels(s[1..]);
      InsertKeepsLabels(s[0], Sort(s[1..]));
    }
  }

  lemma HeadsAgree(a: seq<nat>, b: seq<nat>)
    requires Ascending(a) && Ascending(b) && multiset(a) == multiset(b) && a != [] && b != []
    ensures a[0] == b[0]
    ensures multiset(a[1..]) == multiset(b[1..])
  {
    HeadIsLeast(a, b);
    HeadIsLeast(b, a);
    WithoutHead(a);
    WithoutHead(b);
  }

  lemma HeadIsLeast(a: seq<nat>, b: seq<nat>)
    requires Ascending(a) && multiset(a) == multiset(b) && a != [] && b != []
    ensures a[0] <= b[0]
  {
    assert b[0] in multiset(a);
    var j :| 0 <= j < |a| && a[j] == b[0];
    assert j > 0 ==> a[0] <= a[j];
  }

  lemma WithoutHead(a: seq<nat>)
    requires a != []
    ensures multiset(a[1..]) == multiset(a) - multiset{a[0]}
  {
    assert a == [a[0]] + a[1..];
  }

  /** A multiset has one ascending arrangement. */
  lemma {:induction false} AscendingIsUnique(a: seq<nat>, b: seq<nat>)
    requires Ascending(a) && Ascending(b) && multiset(a) == multiset(b)
    ensures a == b
  {
    assert |multiset(a)| == |a| && |multiset(b)| == |b|;
    if a != [] {
      HeadsAgree(a, b);
      AscendingIsUnique(a[1..], b[1..]);
      assert a == [a[0]] + a[1..] && b == [b[0]] + b[1..];
    }
  }

  lemma LabelsInPlace(s: seq<EmbedData>)
    ensures InPlace(s) <==> Labels(s) == UpTo(|s|)
    ensures SortedByIndex(s) ==> Ascending(Labels(s))
  {
    if Labels(s) == UpTo(|s|) {
      assert forall i | 0 <= i < |s| :: s[i].index == Labels(s)[i];
    }
  }

  lemma InPlaceExactlyWhenPermuted(reply: seq<EmbedData>)
    ensures InPlace(Sort(reply)) <==> multiset(Labels(reply)) == multiset(UpTo(|reply|))
  {
    SortSorts(reply);
    SortKeepsLabels(reply);
    LabelsInPlace(Sort(reply));
    if multiset(Labels(reply)) == multiset(UpTo(|reply|)) {
      AscendingIsUnique(Labels(Sort(reply)), UpTo(|reply|));
    }
  }

  /** A reply is accepted exactly when its labels are a permutation of 0..n; then each
      entry's vector stands at the position of its own label. */
  lemma AcceptedExactlyWhenPermuted(reply: seq<EmbedData>)
    ensures EmbedChunk(Ok(reply)).Ok? <==> multiset(Labels(reply)) == multiset(UpTo(|reply|))
    ensures EmbedChunk(Ok(reply)).Ok? ==>
      var vs := EmbedChunk(Ok(reply)).value;
      && |vs| == |reply|
      && (forall d <- reply :: d.index < |vs| && vs[d.index] == d.embedding)
  {
    var s := Sort(reply);
    SortSorts(reply);
    InPlaceExactlyWhenPermuted(reply);
    SameElements(s, reply);
    if InPlace(s) {
      forall d | d in reply ensures d.index < |s| && Vectors(s)[d.index] == d.embedding {
        var i :| 0 <= i < |s| && s[i] == d;
      }
    }
  }

  /** A chunk fails with the error of its request, or as misaligned exactly when its labels are
      no permutation. */
  lemma ChunkFailsExactly(reply: Result<seq<EmbedData>, EmbedError>, e: EmbedError)
    ensures EmbedChunk(reply) == Err(e) <==>
      || reply == Err(e)
      || (reply.Ok? && e == Misaligned && multiset(Labels(reply.value)) != multiset(UpTo(|reply.value|)))
  {
    if reply.Ok? {
      AcceptedExactlyWhenPermuted(reply.value);
    }
  }

  lemma SameElements(a: seq<EmbedData>, b: seq<EmbedData>)
    requires multiset(a) == multiset(b)
    ensures forall d :: d in a <==> d in b
  {
    assert forall d :: d in a <==> d in multiset(a);
    assert forall d :: d in b <==> d in multiset(b);
  }

  // ---- The concurrent call -----------------------------------------------------------

  const EMBED_CHUNK_CONCURRENCY := 4

  /** `slice::chunks`. */
  function Chunks<T>(s: seq<T>, size: nat): (cs: seq<seq<T>>)
    requires size > 0
    ensures cs == [] <==> s == []
    ensures forall c <- cs :: 1 <= |c| <= size
  {
    if s == [] then []
    else if |s| <= size then [s]
    else [s[..size]] + Chunks(s[size..], size)
  }

  /** All chunks but the last are full. */
  lemma {:induction false} ChunksAreFull<T>(s: seq<T>, size: nat, k: nat)
    requires size > 0 && k + 1 < |Chunks(s, size)|
    ensures |Chunks(s, size)[k]| == size
  {
    if |s| > size && k > 0 {
      ChunksAreFull(s[size..], size, k - 1);
    }
  }

  predicate AllOk(outcomes: seq<Result<seq<Vector>, EmbedError>>) {
    forall i | 0 <= i < |outcomes| :: outcomes[i].Ok?
  }

  function Values(outcomes: seq<Result<seq<Vector>, EmbedError>>): (vs: seq<seq<Vector>>)
    requires AllOk(outcomes)
    ensures |vs| == |outcomes| && forall i | 0 <= i < |vs| :: vs[i] == outcomes[i].value
  {
    seq(|outcomes|, i requires 0 <= i < |outcomes| => outcomes[i].value)
  }

  /** The slots after some tasks were joined: each holds its own chunk's vectors. */
  ghost predicate Filled(slots: seq<Option<seq<Vector>>>, outcomes: seq<Result<seq<Vector>, EmbedError>>,
                         inFlight: set<nat>, spawned: nat)
  {
    && |slots| == |outcomes| && spawned <= |slots|
    && (forall k | k in inFlight :: k < spawned)
    && (forall k: nat | k < |slots| :: slots[k].Some? <==> k < spawned && k !in inFlight)
    && (forall k: nat | k < |slots| && slots[k].Some? :: outcomes[k] == Ok(slots[k].value))
  }

  lemma JoinFills(slots: seq<Option<seq<Vector>>>, outcomes: seq<Result<seq<Vector>, EmbedError>>,
                  inFlight: set<nat>, spawned: nat, idx: nat)
    requires Filled(slots, outcomes, inFlight, spawned) && idx in inFlight && outcomes[idx].Ok?
    ensures Filled(slots[idx := Some(outcomes[idx].value)], outcomes, inFlight - {idx}, spawned)
  {
  }

  lemma SpawnFills(slots: seq<Option<seq<Vector>>>, outcomes: seq<Result<seq<Vector>, EmbedError>>,
                   inFlight: set<nat>, spawned: nat)
    requires Filled(slots, outcomes, inFlight, spawned) && spawned < |slots|
    ensures Filled(slots, outcomes, inFlight + {spawned}, spawned + 1)
  {
  }

  /** `embed` over the outcomes its chunk tasks will have, joined in any order. It
      answers exactly what the sequential loop would: all the vectors in chunk order,
      or an error of some failed chunk. Up to four chunks are in flight at a time. */
  method JoinChunks(texts: seq<string>, batchSize: nat, outcomes: seq<Result<seq<Vector>, EmbedError>>)
      returns (r: Result<seq<Vector>, EmbedError>, ghost peak: nat)
    requires batchSize > 0 && |outcomes| == |Chunks(texts, batchSize)|
    ensures r.Ok? <==> AllOk(outcomes)
    ensures r.Ok? ==> r.value == Flatten(Values(outcomes))
    ensures r.Err? ==> r in outcomes
    ensures peak <= 4 && (r.Ok? ==> peak == if |outcomes| < 4 then |outcomes| else 4)
  {
    peak := 0;
    var n := |Chunks(texts, batchSize)|;
    var slots: seq<Option<seq<Vector>>> := seq(n, _ => None);
    var inFlight: set<nat> := {};
    for i := 0 to n
      invariant |inFlight| == peak == if i < EMBED_CHUNK_CONCURRENCY then i else EMBED_CHUNK_CONCURRENCY
      invariant Filled(slots, outcomes, inFlight, i)
    {
      if |inFlight| >= EMBED_CHUNK_CONCURRENCY {
        var idx :| idx in inFlight;
        if outcomes[idx].Err? {
          return Err(outcomes[idx].error), peak;
        }
        JoinFills(slots, outcomes, inFlight, i, idx);
        inFlight := inFlight - {idx};
        slots := slots[idx := Some(outcomes[idx].value)];
      }
      SpawnFills(slots, outcomes, inFlight, i);
      inFlight := inFlight + {i};
      peak := if |inFlight| > peak then |inFlight| else peak;
    }
    while inFlight != {}
      invariant Filled(slots, outcomes, inFlight, n)
      decreases |inFlight|
    {
      var idx :| idx in inFlight;
      if outcomes[idx].Err? {
        return Err(outcomes[idx].error), peak;
      }
      JoinFills(slots, outcomes, inFlight, n, idx);
      inFlight := inFlight - {idx};
      slots := slots[idx := Some(outcomes[idx].value)];
    }
    var all := Reassemble(slots, outcomes);
    r := Ok(all);
  }

  /** The whole call: what the chunks returned, in chunk order, or one of their errors.
      Every chunk's vectors are at its texts' places in the result exactly when every chunk
      returned one vector per text. */
  method Embed(texts: seq<string>, batchSize: nat, outcomes: seq<Result<seq<Vector>, EmbedError>>)
      returns (r: Result<seq<Vector>, EmbedError>, ghost peak: nat)
    requires batchSize > 0 && |outcomes| == |Chunks(texts, batchSize)|
    ensures r.Ok? <==> AllOk(outcomes)
    ensures r.Ok? ==> r.value == Flatten(Values(outcomes))
    ensures r.Ok? ==>
      (Aligned(r.value, Values(outcomes), Chunks(texts, batchSize))
       <==> CountsMatch(Values(outcomes), Chunks(texts, batchSize)))
    ensures r.Err? ==> r in outcomes
    ensures peak <= 4 && (r.Ok? ==> peak == if |outcomes| < 4 then |outcomes| else 4)
  {
    r, peak := JoinChunks(texts, batchSize, outcomes);
    if r.Ok? {
      AlignedExactlyWhenCountsMatch(Values(outcomes), Chunks(texts, batchSize));
    }
  }

  /** Every slot is filled by now; concatenate them in chunk order. */
  method Reassemble(slots: seq<Option<seq<Vector>>>, ghost outcomes: seq<Result<seq<Vector>, EmbedError>>)
      returns (all: seq<Vector>)
    requires Filled(slots, outcomes, {}, |slots|)
    ensures AllOk(outcomes) && all == Flatten(Values(outcomes))
  {
    assert forall k: nat | k < |slots| :: slots[k].Some?;
    ghost var vs := Values(outcomes);
    all := [];
    for i := 0 to |slots|
      invariant all == Flatten(vs[..i])
    {
      assert vs[..i + 1][..i] == vs[..i];
      all := all + slots[i].value;
    }
    assert vs[..|slots|] == vs;
  }

  // ---- Which text a vector belongs to --------------------------------------------------

  /** A call of at most `size` texts is one chunk. */
  lemma OneChunkIsItsReply<T>(s: seq<T>, size: nat)
    requires 0 < |s| <= size
    ensures Chunks(s, size) == [s] && Flatten([s]) == s
  {
    assert [s][..0] == [];
  }

  lemma FlattenNext<T>(s: seq<T>, size: nat, rest: seq<seq<T>>)
    requires size <= |s| && Flatten(rest) == s[size..]
    ensures Flatten([s[..size]] + rest) == s
  {
    FlattenCons(s[..size], rest);
    assert s == s[..size] + s[size..];
  }

  lemma {:induction false} FlattenChunks<T>(s: seq<T>, size: nat)
    requires size > 0
    ensures Flatten(Chunks(s, size)) == s
  {
    if s != [] {
      if |s| <= size {
        OneChunkIsItsReply(s, size);
      } else {
        FlattenChunks(s[size..], size);
        FlattenNext(s, size, Chunks(s[size..], size));
      }
    }
  }

  /** Where chunk `k` begins in the concatenation. */
  function Start<T>(ss: seq<seq<T>>, k: nat): nat
    requires k <= |ss|
  {
    if k == 0 then 0 else Start(ss, k - 1) + |ss[k - 1]|
  }

  /** Across several chunks, every chunk's vectors begin where its texts begin exactly
      when every chunk returned one vector per text. */
  lemma {:induction false} ChunksLineUpExactly<T, U>(vs: seq<seq<T>>, cs: seq<seq<U>>, n: nat)
    requires n <= |vs| == |cs|
    ensures (forall k | 0 <= k <= n :: Start(vs, k) == Start(cs, k))
            <==> (forall k | 0 <= k < n :: |vs[k]| == |cs[k]|)
  {
    if n > 0 {
      ChunksLineUpExactly(vs, cs, n - 1);
      assert Start(vs, n) == Start(vs, n - 1) + |vs[n - 1]|;
      assert Start(cs, n) == Start(cs, n - 1) + |cs[n - 1]|;
    }
  }

  lemma {:induction false} FlattenLength<T>(ss: seq<seq<T>>, n: nat)
    requires n <= |ss|
    ensures |Flatten(ss[..n])| == Start(ss, n)
  {
    if n > 0 {
      FlattenLength(ss, n - 1);
      assert ss[..n][..n - 1] == ss[..n - 1];
    }
  }

  lemma {:induction false} StartOfPrefix<T>(ss: seq<seq<T>>, n: nat, k: nat)
    requires k <= n <= |ss|
    ensures Start(ss[..n], k) == Start(ss, k)
  {
    if k > 0 {
      StartOfPrefix(ss, n, k - 1);
    }
  }

  lemma SliceOfPrefix<T>(a: seq<T>, b: seq<T>, i: nat, j: nat)
    requires i <= j <= |a|
    ensures (a + b)[i..j] == a[i..j]
  {
  }

  /** Chunk `k` lies at its start in the concatenation. */
  lemma {:induction false} PieceAt<T>(all: seq<T>, ss: seq<seq<T>>, k: nat)
    requires Flatten(ss) == all && k < |ss|
    ensures Start(ss, k) + |ss[k]| <= |all| && all[Start(ss, k)..Start(ss, k) + |ss[k]|] == ss[k]
    decreases |ss|
  {
    var n := |ss| - 1;
    var before := Flatten(ss[..n]);
    FlattenLength(ss, n);
    assert all == before + ss[n];
    if k < n {
      PieceAt(before, ss[..n], k);
      StartOfPrefix(ss, n, k);
      SliceOfPrefix(before, ss[n], Start(ss, k), Start(ss, k) + |ss[k]|);
    }
  }

  /** The texts of chunk `k` are the texts at its places of the request. */
  lemma TextsAt(texts: seq<string>, batchSize: nat, cs: seq<seq<string>>, k: nat)
    requires batchSize > 0 && cs == Chunks(texts, batchSize) && k < |cs|
    ensures Start(cs, k) + |cs[k]| <= |texts| && texts[Start(cs, k)..Start(cs, k) + |cs[k]|] == cs[k]
  {
    FlattenChunks(texts, batchSize);
    PieceAt(texts, cs, k);
  }

  /** The places of chunk `k`'s texts hold chunk `k`'s vectors. */
  predicate Sits<T>(all: seq<Vector>, vs: seq<seq<Vector>>, cs: seq<seq<T>>, k: nat)
    requires k < |cs| == |vs|
  {
    Start(cs, k) + |cs[k]| <= |all| && all[Start(cs, k)..Start(cs, k) + |cs[k]|] == vs[k]
  }

  predicate Aligned<T>(all: seq<Vector>, vs: seq<seq<Vector>>, cs: seq<seq<T>>) {
    |cs| == |vs| && forall k | 0 <= k < |cs| :: Sits(all, vs, cs, k)
  }

  predicate CountsMatch<T>(vs: seq<seq<Vector>>, cs: seq<seq<T>>) {
    |cs| == |vs| && forall k | 0 <= k < |cs| :: |vs[k]| == |cs[k]|
  }

  /** In the concatenation every chunk's vectors sit at its texts' places exactly when
      every chunk returned one vector per text. */
  lemma AlignedExactlyWhenCountsMatch<T>(vs: seq<seq<Vector>>, cs: seq<seq<T>>)
    ensures Aligned(Flatten(vs), vs, cs) <==> CountsMatch(vs, cs)
  {
    if CountsMatch(vs, cs) {
      ChunksLineUpExactly(vs, cs, |cs|);
      forall k | 0 <= k < |cs| ensures Sits(Flatten(vs), vs, cs, k) {
        PieceAt(Flatten(vs), vs, k);
      }
    }
    if Aligned(Flatten(vs), vs, cs) {
      forall k | 0 <= k < |cs| ensures |vs[k]| == |cs[k]| {
        assert Sits(Flatten(vs), vs, cs, k);
      }
    }
  }

  /** The total alone does not show it: two wrong counts can cancel out. */
  lemma CountsCanCancel(a: Vector, b: Vector, c: Vector, d: Vector)
    ensures var vs, cs := [[a], [b, c, d]], Chunks(["t0", "t1", "t2", "t3"], 2);
      |vs| == |cs| && Start(vs, 2) == Start(cs, 2) == 4 && Start(vs, 1) != Start(cs, 1)
  {
    assert ["t0", "t1", "t2", "t3"][2..] == ["t2", "t3"];
    assert ["t0", "t1", "t2", "t3"][..2] == ["t0", "t1"];
    var vs, cs := [[a], [b, c, d]], Chunks(["t0", "t1", "t2", "t3"], 2);
    assert cs == [["t0", "t1"], ["t2", "t3"]];
    StartOfTwo(vs);
    StartOfTwo(cs);
  }

  lemma StartOfTwo<T>(ss: seq<seq<T>>)
    requires |ss| == 2
    ensures Start(ss, 1) == |ss[0]| && Start(ss, 2) == |ss[0]| + |ss[1]|
  {
    assert Start(ss, 0) == 0;
  }
}
