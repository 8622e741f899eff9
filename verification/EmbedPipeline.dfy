/** The per-ZIM embedding pipeline (`src/embed/pipeline.rs`): claim a super-batch, drop
    poison rows, embed each sub-batch in its own task, write the vectors in bulk. */
module EmbedPipeline {
  import opened Numbers
  import opened Wrappers
  import opened EmbedClient

  const CLAIM_WINDOW := 600
  const POISON_FAIL_MAX := 3
  const POISON_FAIL_MAP_CAP := 100_000
  const EMBED_CLAIM_LIMIT_CAP := 100_000
  const I64_MAX := 0x7FFF_FFFF_FFFF_FFFF

  /** `checked_mul`, then the cap; both factors are at least one. */
  function ClaimLimitFor(batchSize: nat, maxConcurrency: nat): (limit: nat)
    requires 0 < batchSize <= I64_MAX && 0 < maxConcurrency <= I64_MAX
    ensures 0 < limit <= EMBED_CLAIM_LIMIT_CAP
    ensures limit == if batchSize * maxConcurrency <= EMBED_CLAIM_LIMIT_CAP
                     then batchSize * maxConcurrency else EMBED_CLAIM_LIMIT_CAP
  {
    var product := if batchSize * maxConcurrency <= I64_MAX
                   then batchSize * maxConcurrency else EMBED_CLAIM_LIMIT_CAP;
    if product < EMBED_CLAIM_LIMIT_CAP then product else EMBED_CLAIM_LIMIT_CAP
  }

  /** An article of the ZIM; `text` is the snippet and preview sent to the provider. */
  datatype Article = Article(id: int, text: string, embedding: Option<Vector>, embedAt: Option<int>)

  /** The ZIM's articles in id order. */
  predicate Ordered(rows: seq<Article>) {
    forall i, j | 0 <= i < j < |rows| :: rows[i].id < rows[j].id
  }

  predicate Claimable(a: Article, now: int) {
    a.embedding.None? && (a.embedAt.None? || a.embedAt.value < now - CLAIM_WINDOW)
  }

  datatype Item = Item(id: int, text: string)

  /** `CLAIM_EMBED_BATCH_SQL`: the first `n` claimable rows in id order, and the table
      with those rows stamped. */
  function Claimed(rows: seq<Article>, now: int, n: nat): seq<Item> {
    if rows == [] || n == 0 then []
    else if Claimable(rows[0], now) then [Item(rows[0].id, rows[0].text)] + Claimed(rows[1..], now, n - 1)
    else Claimed(rows[1..], now, n)
  }

  function Stamped(rows: seq<Article>, now: int, n: nat): seq<Article> {
    if rows == [] || n == 0 then rows
    else if Claimable(rows[0], now) then [rows[0].(embedAt := Some(now))] + Stamped(rows[1..], now, n - 1)
    else [rows[0]] + Stamped(rows[1..], now, n)
  }

  // ---- Which rows a claim takes -----------------------------------------------------------

  /** No vector, and no stamp or one more than ten minutes old. */
  predicate Overdue(a: Article, now: int) {
    a.embedding == None && (a.embedAt == None || now - a.embedAt.value > 600)
  }

  /** The overdue rows among the first `r`. */
  function OverdueBefore(rows: seq<Article>, now: int, r: nat): nat
    requires r <= |rows|
  {
    if r == 0 then 0 else OverdueBefore(rows, now, r - 1) + One(Overdue(rows[r - 1], now))
  }

  lemma {:induction false} OverdueSplits(rows: seq<Article>, now: int, r: nat)
    requires 0 < r <= |rows|
    ensures OverdueBefore(rows, now, r) == One(Overdue(rows[0], now)) + OverdueBefore(rows[1..], now, r - 1)
  {
    if r > 1 {
      OverdueSplits(rows, now, r - 1);
      assert rows[1..][r - 2] == rows[r - 1];
    } else {
      assert OverdueBefore(rows, now, 0) == 0;
    }
  }

  /** A claim of `n` rows takes a row exactly when it is overdue and fewer than `n` overdue
      rows come before it. */
  predicate Taken(rows: seq<Article>, now: int, n: nat, r: nat)
    requires r < |rows|
  {
    Overdue(rows[r], now) && OverdueBefore(rows, now, r) < n
  }

  lemma TakenLater(rows: seq<Article>, now: int, n: nat, r: nat)
    requires 0 < r < |rows|
    ensures var k := if Overdue(rows[0], now) then n - 1 else n;
      if k < 0 then !Taken(rows, now, n, r) else Taken(rows, now, n, r) <==> Taken(rows[1..], now, k, r - 1)
  {
    OverdueSplits(rows, now, r);
    assert rows[1..][r - 1] == rows[r];
  }

  /** The stamp goes to exactly those rows. */
  lemma {:induction false} StampedExactly(rows: seq<Article>, now: int, n: nat, r: nat)
    requires r < |rows|
    ensures |Stamped(rows, now, n)| == |rows|
    ensures Stamped(rows, now, n)[r]
            == if Taken(rows, now, n, r) then rows[r].(embedAt := Some(now)) else rows[r]
  {
    StampedKeeps(rows, now, n);
    if n > 0 && r > 0 {
      var k := if Claimable(rows[0], now) then n - 1 else n;
      StampedExactly(rows[1..], now, k, r - 1);
      TakenLater(rows, now, n, r);
      assert Stamped(rows, now, n)[1..] == Stamped(rows[1..], now, k);
    }
  }

  /** And exactly those rows are returned. */
  lemma {:induction false} ClaimedExactly(rows: seq<Article>, now: int, n: nat, r: nat)
    requires Ordered(rows) && r < |rows|
    ensures Item(rows[r].id, rows[r].text) in Claimed(rows, now, n) <==> Taken(rows, now, n, r)
  {
    var it := Item(rows[r].id, rows[r].text);
    if n > 0 {
      var k := if Claimable(rows[0], now) then n - 1 else n;
      if r > 0 {
        assert rows[1..][r - 1] == rows[r] && rows[0].id < rows[r].id;
        ClaimedExactly(rows[1..], now, k, r - 1);
        TakenLater(rows, now, n, r);
      } else if it in Claimed(rows[1..], now, k) {
        ClaimedAreRows(rows[1..], now, k);
        FromLaterRow(rows, now, it);
      }
    }
  }

  // ---- One claim of many batches is many claims ------------------------------------------

  /** Claiming `n + m` rows at once is claiming `n` and then `m` at the same instant. */
  lemma {:induction false} ClaimSplits(rows: seq<Article>, now: int, n: nat, m: nat)
    ensures Claimed(rows, now, n + m)
            == Claimed(rows, now, n) + Claimed(Stamped(rows, now, n), now, m)
    ensures Stamped(rows, now, n + m) == Stamped(Stamped(rows, now, n), now, m)
    decreases |rows|
  {
    if rows != [] && n > 0 {
      var s := Stamped(rows, now, n);
      if Claimable(rows[0], now) {
        ClaimSplits(rows[1..], now, n - 1, m);
        assert s[1..] == Stamped(rows[1..], now, n - 1);
      } else {
        ClaimSplits(rows[1..], now, n, m);
        assert s[1..] == Stamped(rows[1..], now, n);
      }
    }
  }

  /** The batches of `k` sequential claims of `size` rows. */
  function SequentialBatches(rows: seq<Article>, now: int, size: nat, k: nat): seq<seq<Item>>
    requires size > 0
    decreases k
  {
    if k == 0 || Claimed(rows, now, size) == [] then []
    else [Claimed(rows, now, size)] + SequentialBatches(Stamped(rows, now, size), now, size, k - 1)
  }

  function SequentialTable(rows: seq<Article>, now: int, size: nat, k: nat): seq<Article>
    decreases k
  {
    if k == 0 then rows else SequentialTable(Stamped(rows, now, size), now, size, k - 1)
  }

  lemma {:induction false} ClaimedAtMost(rows: seq<Article>, now: int, n: nat)
    ensures |Claimed(rows, now, n)| <= n
  {
    if rows != [] && n > 0 {
      ClaimedAtMost(rows[1..], now, if Claimable(rows[0], now) then n - 1 else n);
    }
  }

  /** A short claim leaves nothing claimable. */
  lemma {:induction false} ShortClaimIsTheLast(rows: seq<Article>, now: int, n: nat, m: nat)
    requires |Claimed(rows, now, n)| < n
    ensures Claimed(Stamped(rows, now, n), now, m) == []
  {
    if rows != [] {
      var k := if Claimable(rows[0], now) then n - 1 else n;
      ShortClaimIsTheLast(rows[1..], now, k, m);
      assert Stamped(rows, now, n)[1..] == Stamped(rows[1..], now, k);
    }
  }

  lemma ChunksJoin<T>(first: seq<T>, rest: seq<T>, size: nat)
    requires |first| == size > 0
    ensures Chunks(first + rest, size) == [first] + Chunks(rest, size)
  {
    assert (first + rest)[..size] == first && (first + rest)[size..] == rest;
    assert rest == [] ==> first + rest == first;
  }

  /** Cutting one claim of `size + more` rows: the first piece is the first claim. */
  lemma FirstPieceIsFirstClaim(rows: seq<Article>, now: int, size: nat, more: nat)
    requires size > 0
    ensures var first, next := Claimed(rows, now, size), Stamped(rows, now, size);
      Chunks(Claimed(rows, now, size + more), size)
      == if first == [] then [] else [first] + Chunks(Claimed(next, now, more), size)
  {
    var first, rest := Claimed(rows, now, size), Claimed(Stamped(rows, now, size), now, more);
    ClaimSplits(rows, now, size, more);
    ClaimedAtMost(rows, now, size);
    if |first| < size {
      ShortClaimIsTheLast(rows, now, size, more);
      assert first + rest == first;
    } else {
      ChunksJoin(first, rest, size);
    }
  }

  /** One super-batch of `size * k` rows, cut into pieces of `size`, is batch for batch
      what `k` sequential claims produce, and leaves the same table. */
  lemma {:induction false} SuperBatchIsSequential(rows: seq<Article>, now: int, size: nat, k: nat)
    requires size > 0
    ensures Chunks(Claimed(rows, now, size * k), size) == SequentialBatches(rows, now, size, k)
    ensures Stamped(rows, now, size * k) == SequentialTable(rows, now, size, k)
    decreases k
  {
    if k > 0 {
      var more := size * (k - 1);
      OneMore(size, k);
      FirstPieceIsFirstClaim(rows, now, size, more);
      SuperBatchIsSequential(Stamped(rows, now, size), now, size, k - 1);
      assert Stamped(rows, now, size * k) == Stamped(Stamped(rows, now, size), now, more) by {
        ClaimSplits(rows, now, size, more);
      }
    }
  }

  lemma OneMore(size: nat, k: nat)
    requires k > 0
    ensures size * k == size + size * (k - 1)
  {
  }

  /** RETURNING gives the claimed rows back in some order. */
  predicate Arrangement(order: seq<Item>, claimed: seq<Item>) {
    && |order| == |claimed| && DistinctIds(order)
    && (forall it <- order :: it in claimed) && (forall it <- claimed :: it in order)
  }

  /** Nothing is claimable. */
  ghost predicate Drained(rows: seq<Article>, now: int) {
    forall n :: Claimed(rows, now, n) == []
  }

  /** The pieces of the returned rows, and the table left behind, are those of some
      number of sequential claims. */
  ghost predicate Fifo(rows: seq<Article>, now: int, size: nat, limit: nat, order: seq<Item>)
    requires size > 0
  {
    exists k: nat :: Chunks(order, size) == SequentialBatches(rows, now, size, k)
                     && Stamped(rows, now, limit) == SequentialTable(rows, now, size, k)
  }

  lemma {:induction false} NothingToStamp(rows: seq<Article>, now: int, n: nat)
    requires Claimed(rows, now, n) == []
    ensures Stamped(rows, now, n) == rows
  {
    if rows != [] && n > 0 {
      NothingToStamp(rows[1..], now, n);
    }
  }

  /** Claims past the point where nothing is claimable add nothing. */
  lemma PastTheLast(rows: seq<Article>, now: int, n: nat, more: nat)
    requires Drained(Stamped(rows, now, n), now)
    ensures Claimed(rows, now, n + more) == Claimed(rows, now, n)
    ensures Stamped(rows, now, n + more) == Stamped(rows, now, n)
  {
    ClaimSplits(rows, now, n, more);
    NothingToStamp(Stamped(rows, now, n), now, more);
  }

  /** If asking for more rows gives no more rows, nothing was left. */
  lemma NoMoreIsDrained(rows: seq<Article>, now: int, n: nat, more: nat)
    requires more > 0 && |Claimed(rows, now, n + more)| == |Claimed(rows, now, n)|
    ensures Drained(Stamped(rows, now, n), now)
  {
    ClaimSplits(rows, now, n, more);
    var left := Stamped(rows, now, n);
    NothingToStamp(left, now, more);
    forall k ensures Claimed(left, now, k) == [] {
      ShortClaimIsTheLast(left, now, more, k);
    }
  }

  function Times(size: nat, k: nat): nat {
    size * k
  }

  /** `n` rows make whole batches. */
  ghost predicate Whole(n: nat, size: nat) {
    exists k: nat :: Times(size, k) == n
  }

  /** A claim of `limit` rows is a number of sequential claims of `size` exactly when the
      rows come back in id order and the limit makes whole batches or takes the last
      claimable row. */
  lemma FifoExactly(rows: seq<Article>, now: int, size: nat, limit: nat, order: seq<Item>)
    requires size > 0 && Arrangement(order, Claimed(rows, now, limit))
    ensures Fifo(rows, now, size, limit, order) <==>
      && order == Claimed(rows, now, limit)
      && (Whole(limit, size) || Drained(Stamped(rows, now, limit), now))
  {
    if Fifo(rows, now, size, limit, order) {
      var k: nat :| Chunks(order, size) == SequentialBatches(rows, now, size, k);
      OnlyInOrder(rows, now, size, limit, order, k);
    }
    if order == Claimed(rows, now, limit) && (Whole(limit, size) || Drained(Stamped(rows, now, limit), now)) {
      InOrderIsFifo(rows, now, size, limit);
    }
  }

  lemma InOrderIsFifo(rows: seq<Article>, now: int, size: nat, limit: nat)
    requires size > 0 && (Whole(limit, size) || Drained(Stamped(rows, now, limit), now))
    ensures Fifo(rows, now, size, limit, Claimed(rows, now, limit))
  {
    if Whole(limit, size) {
      var k: nat :| Times(size, k) == limit;
      TurnsAreFifo(rows, now, size, limit, k);
    } else {
      DrainedIsFifo(rows, now, size, limit);
    }
  }

  lemma DrainedIsFifo(rows: seq<Article>, now: int, size: nat, limit: nat)
    requires size > 0 && Drained(Stamped(rows, now, limit), now)
    ensures Fifo(rows, now, size, limit, Claimed(rows, now, limit))
  {
    EnoughTurns(size, limit);
    PastTheLast(rows, now, limit, Times(size, limit) - limit);
    TurnsAreFifo(rows, now, size, limit, limit);
  }

  lemma TurnsAreFifo(rows: seq<Article>, now: int, size: nat, limit: nat, k: nat)
    requires size > 0
    requires Claimed(rows, now, Times(size, k)) == Claimed(rows, now, limit)
    requires Stamped(rows, now, Times(size, k)) == Stamped(rows, now, limit)
    ensures Fifo(rows, now, size, limit, Claimed(rows, now, limit))
  {
    SuperBatchIsSequential(rows, now, size, k);
  }

  lemma EnoughTurns(size: nat, limit: nat)
    requires size > 0
    ensures Times(size, limit) >= limit
  {
  }

  lemma OnlyInOrder(rows: seq<Article>, now: int, size: nat, limit: nat, order: seq<Item>, k: nat)
    requires size > 0 && Arrangement(order, Claimed(rows, now, limit))
    requires Chunks(order, size) == SequentialBatches(rows, now, size, k)
    ensures order == Claimed(rows, now, limit)
    ensures Whole(limit, size) || Drained(Stamped(rows, now, limit), now)
  {
    var n := Times(size, k);
    SuperBatchIsSequential(rows, now, size, k);
    FlattenChunks(order, size);
    FlattenChunks(Claimed(rows, now, n), size);
    assert order == Claimed(rows, now, n);
    SameCount(rows, now, n, limit);
  }

  /** Two claims that return equally many rows return the same rows; if their limits differ
      both took the last claimable row. */
  lemma SameCount(rows: seq<Article>, now: int, n: nat, m: nat)
    requires |Claimed(rows, now, n)| == |Claimed(rows, now, m)|
    ensures Claimed(rows, now, n) == Claimed(rows, now, m)
    ensures n == m || Drained(Stamped(rows, now, m), now)
  {
    if n < m {
      NoMoreIsDrained(rows, now, n, m - n);
      PastTheLast(rows, now, n, m - n);
    } else if m < n {
      NoMoreIsDrained(rows, now, m, n - m);
      PastTheLast(rows, now, m, n - m);
    }
  }

  /** The limit the pipeline uses makes whole batches exactly when the product fits under
      the cap or the cap does. */
  lemma LimitIsWholeExactly(batchSize: nat, maxConcurrency: nat)
    requires 0 < batchSize <= I64_MAX && 0 < maxConcurrency <= I64_MAX
    ensures Whole(ClaimLimitFor(batchSize, maxConcurrency), batchSize) <==>
      batchSize * maxConcurrency <= EMBED_CLAIM_LIMIT_CAP || Whole(EMBED_CLAIM_LIMIT_CAP, batchSize)
  {
    assert Times(batchSize, maxConcurrency) == batchSize * maxConcurrency;
  }

  // ---- What a claim returns --------------------------------------------------------------

  predicate DistinctIds(items: seq<Item>) {
    forall i, j | 0 <= i < j < |items| :: items[i].id != items[j].id
  }

  /** The item carries the id and the text of a row of the table. */
  predicate FromTable(rows: seq<Article>, it: Item) {
    exists r | 0 <= r < |rows| :: rows[r].id == it.id && rows[r].text == it.text
  }

  predicate FromClaimable(rows: seq<Article>, now: int, it: Item) {
    exists r | 0 <= r < |rows| :: rows[r].id == it.id && rows[r].text == it.text && Claimable(rows[r], now)
  }

  lemma FromLaterRow(rows: seq<Article>, now: int, it: Item)
    requires Ordered(rows) && rows != [] && FromClaimable(rows[1..], now, it)
    ensures FromClaimable(rows, now, it) && it.id > rows[0].id
  {
    var later := rows[1..];
    var r :| 0 <= r < |later| && later[r].id == it.id && later[r].text == it.text && Claimable(later[r], now);
    assert rows[r + 1] == later[r];
  }

  /** A claim returns claimable rows of the table, each once. */
  lemma {:induction false} ClaimedAreRows(rows: seq<Article>, now: int, n: nat)
    requires Ordered(rows)
    ensures DistinctIds(Claimed(rows, now, n))
    ensures forall it <- Claimed(rows, now, n) :: FromClaimable(rows, now, it)
  {
    if rows != [] && n > 0 {
      var k := if Claimable(rows[0], now) then n - 1 else n;
      var rest := Claimed(rows[1..], now, k);
      ClaimedAreRows(rows[1..], now, k);
      forall it | it in rest ensures it.id > rows[0].id && FromClaimable(rows, now, it) {
        FromLaterRow(rows, now, it);
      }
      assert Claimable(rows[0], now) ==> FromClaimable(rows, now, Item(rows[0].id, rows[0].text));
    }
  }

  /** Stamping changes only `embedAt`, and only of claimable rows. */
  lemma {:induction false} StampedKeeps(rows: seq<Article>, now: int, n: nat)
    ensures |Stamped(rows, now, n)| == |rows|
    ensures forall i | 0 <= i < |rows| ::
      var s := Stamped(rows, now, n)[i];
      s == rows[i] || (Claimable(rows[i], now) && s == rows[i].(embedAt := Some(now)))
  {
    if rows != [] && n > 0 {
      StampedKeeps(rows[1..], now, if Claimable(rows[0], now) then n - 1 else n);
    }
  }

  // ---- The bulk write -----------------------------------------------------------------------

  datatype Pair = Pair(id: int, placeholder: nat)

  /** The VALUES list: literal ids against positional placeholders from $1. */
  function BulkUpdateSql(ids: seq<int>): (sql: Option<seq<Pair>>)
    ensures sql.None? <==> ids == []
  {
    if ids == [] then None
    else Some(seq(|ids|, i requires 0 <= i < |ids| => Pair(ids[i], i + 1)))
  }

  /** The value the join finds for a row, if any pair names its id. */
  function Bound(pairs: seq<Pair>, binds: seq<Vector>, id: int): Option<Vector>
    requires forall p <- pairs :: 1 <= p.placeholder <= |binds|
  {
    if pairs == [] then None
    else if pairs[0].id == id then
      assert pairs[0] in pairs;
      Some(binds[pairs[0].placeholder - 1])
    else
      assert forall p <- pairs[1..] :: p in pairs;
      Bound(pairs[1..], binds, id)
  }

  function BulkWrite(rows: seq<Article>, pairs: seq<Pair>, binds: seq<Vector>, now: int): (out: seq<Article>)
    requires forall p <- pairs :: 1 <= p.placeholder <= |binds|
    ensures |out| == |rows|
    ensures forall r | 0 <= r < |rows| ::
      out[r] == var v := Bound(pairs, binds, rows[r].id);
                if v.Some? then rows[r].(embedding := v, embedAt := Some(now)) else rows[r]
  {
    seq(|rows|, r requires 0 <= r < |rows| =>
      var v := Bound(pairs, binds, rows[r].id);
      if v.Some? then rows[r].(embedding := v, embedAt := Some(now)) else rows[r])
  }

  lemma {:induction false} BoundIs(pairs: seq<Pair>, binds: seq<Vector>, i: nat)
    requires (forall p <- pairs :: 1 <= p.placeholder <= |binds|) && i < |pairs|
    requires forall a, b | 0 <= a < b < |pairs| :: pairs[a].id != pairs[b].id
    ensures Bound(pairs, binds, pairs[i].id) == Some(binds[pairs[i].placeholder - 1])
  {
    assert forall p <- pairs[1..] :: p in pairs;
    if i > 0 {
      assert pairs[1..][i - 1] == pairs[i];
      BoundIs(pairs[1..], binds, i - 1);
    }
  }

  lemma {:induction false} BoundIsNone(pairs: seq<Pair>, binds: seq<Vector>, id: int)
    requires (forall p <- pairs :: 1 <= p.placeholder <= |binds|)
    requires forall p <- pairs :: p.id != id
    ensures Bound(pairs, binds, id) == None
  {
    if pairs != [] {
      assert forall p <- pairs[1..] :: p in pairs;
      BoundIsNone(pairs[1..], binds, id);
    }
  }
}
