/** The imperative pieces of the pipeline: the shared failure counters and the claim loop
    of one pipeline run, taken at one instant. */
module EmbedLoop {
  import opened Seqs
  import opened Wrappers
  import opened EmbedClient
  import opened EmbedPipeline
  import opened EmbedRuns

  // ---- The failure counters as shared state ----------------------------------------------------

  /** The process-wide `EMBED_FAILS` map. */
  class PoisonMap {
    var fails: map<int, nat>

    constructor ()
      ensures fails == map[]
    {
      fails := map[];
    }

    /** Drop the poison rows of a sub-batch; past its cap the map is cleared first. */
    method FilterPoisoned(items: seq<Item>) returns (kept: Option<seq<Item>>)
      modifies this
      ensures fails == if |old(fails)| > POISON_FAIL_MAP_CAP then map[] else old(fails)
      ensures kept.None? <==> Kept(fails, items) == []
      ensures kept.Some? ==> kept.value == Kept(fails, items)
    {
      if |fails| > POISON_FAIL_MAP_CAP {
        fails := map[];
      }
      var out: seq<Item> := [];
      for i := 0 to |items|
        invariant fails == if |old(fails)| > POISON_FAIL_MAP_CAP then map[] else old(fails)
        invariant out + Kept(fails, items[i..]) == Kept(fails, items)
      {
        assert items[i..][1..] == items[i + 1..];
        if Get(fails, items[i].id) < POISON_FAIL_MAX {
          out := out + [items[i]];
        }
      }
      kept := if out == [] then None else Some(out);
    }

    method RecordBatchFailure(items: seq<Item>)
      modifies this
      ensures fails == Bump(old(fails), items)
    {
      for i := 0 to |items|
        invariant Bump(fails, items[i..]) == Bump(old(fails), items)
      {
        assert items[i..][1..] == items[i + 1..];
        fails := fails[items[i].id := Get(fails, items[i].id) + 1];
      }
    }

    method RecordBatchSuccess(items: seq<Item>)
      modifies this
      ensures fails == Forget(old(fails), items)
    {
      for i := 0 to |items|
        invariant fails == Forget(old(fails), items[..i])
      {
        fails := fails - {items[i].id};
      }
      assert items[..|items|] == items;
    }
  }

  // ---- One pipeline run within one claim window -----------------------------------------------

  lemma {:induction false} KeptConcat(m: map<int, nat>, a: seq<Item>, b: seq<Item>)
    ensures Kept(m, a + b) == Kept(m, a) + Kept(m, b)
  {
    if a == [] {
      assert a + b == b;
    } else {
      assert (a + b)[1..] == a[1..] + b;
      KeptConcat(m, a[1..], b);
    }
  }

  lemma {:induction false} ClaimedFits(rows: seq<Article>, now: int, n: nat)
    ensures |Claimed(rows, now, n)| <= |rows|
  {
    if rows != [] && n > 0 {
      ClaimedFits(rows[1..], now, if Claimable(rows[0], now) then n - 1 else n);
    }
  }

  /** What the pieces of a super-batch leave to send: the healthy rows of each piece that
      has any. */
  function Surviving(fails: map<int, nat>, subs: seq<seq<Item>>): seq<seq<Item>> {
    if subs == [] then []
    else
      var n := |subs| - 1;
      Surviving(fails, subs[..n]) + if Kept(fails, subs[n]) == [] then [] else [Kept(fails, subs[n])]
  }

  lemma {:induction false} SurvivingIsKept(fails: map<int, nat>, subs: seq<seq<Item>>)
    ensures Flatten(Surviving(fails, subs)) == Kept(fails, Flatten(subs))
  {
    if subs != [] {
      var n := |subs| - 1;
      var before, kept := Surviving(fails, subs[..n]), Kept(fails, subs[n]);
      SurvivingIsKept(fails, subs[..n]);
      KeptConcat(fails, Flatten(subs[..n]), subs[n]);
      assert Flatten(before + [kept]) == Flatten(before) + kept by {
        assert (before + [kept])[..|before|] == before;
      }
      assert Surviving(fails, subs) == if kept == [] then before else before + [kept];
    }
  }

  lemma {:induction false} SurvivingFit(fails: map<int, nat>, subs: seq<seq<Item>>, size: nat)
    requires forall sub <- subs :: |sub| <= size
    ensures Sized(Surviving(fails, subs), size)
  {
    if subs != [] {
      var n := |subs| - 1;
      SurvivingFit(fails, subs[..n], size);
      assert subs[n] in subs;
    }
  }

  /** Hand out one super-batch: filter each piece, send what survives. */
  method HandOut(claimed: seq<Item>, batchSize: nat, fails: map<int, nat>) returns (sent: seq<seq<Item>>)
    requires batchSize > 0
    ensures Flatten(sent) == Kept(fails, claimed)
    ensures Sized(sent, batchSize)
  {
    sent := [];
    var subs := Chunks(claimed, batchSize);
    for i := 0 to |subs|
      invariant sent == Surviving(fails, subs[..i])
    {
      assert subs[..i + 1][..i] == subs[..i];
      var kept := Kept(fails, subs[i]);
      if kept != [] {
        sent := sent + [kept];
      }
    }
    assert subs[..|subs|] == subs;
    FlattenChunks(claimed, batchSize);
    SurvivingIsKept(fails, subs);
    SurvivingFit(fails, subs, batchSize);
  }

  ghost predicate Sized(sent: seq<seq<Item>>, batchSize: nat) {
    forall b <- sent :: 0 < |b| <= batchSize
  }

  /** After claims of `m` rows in all: the stamped table and the batches sent. */
  ghost predicate Progress(rows: seq<Article>, now: int, fails: map<int, nat>, m: nat,
                           after: seq<Article>, sent: seq<seq<Item>>) {
    && after == Stamped(rows, now, m)
    && Flatten(sent) == Kept(fails, Claimed(rows, now, m))
  }

  /** One more pass extends the sent rows by the healthy rows of the next claim. */
  lemma PassExtends(rows: seq<Article>, now: int, fails: map<int, nat>, m: nat, after: seq<Article>,
                    sent: seq<seq<Item>>, limit: nat, part: seq<seq<Item>>)
    requires Progress(rows, now, fails, m, after, sent)
    requires Flatten(part) == Kept(fails, Claimed(after, now, limit))
    ensures Progress(rows, now, fails, m + limit, Stamped(after, now, limit), sent + part)
  {
    ClaimSplits(rows, now, m, limit);
    KeptConcat(fails, Claimed(rows, now, m), Claimed(after, now, limit));
    FlattenConcat(sent, part);
  }

  /** So far every claim was a full one. */
  ghost predicate Full(rows: seq<Article>, now: int, m: nat) {
    m == |Claimed(rows, now, m)| <= |rows|
  }

  lemma StaysFull(rows: seq<Article>, now: int, m: nat, limit: nat)
    requires Full(rows, now, m) && |Claimed(Stamped(rows, now, m), now, limit)| >= limit
    ensures Full(rows, now, m + limit)
  {
    ClaimSplits(rows, now, m, limit);
    ClaimedAtMost(Stamped(rows, now, m), now, limit);
    ClaimedFits(rows, now, m + limit);
  }

  /** The last claim, of `limit` rows up to the `m`th, was full of poison rows. */
  ghost predicate AllPoison(rows: seq<Article>, now: int, fails: map<int, nat>, m: nat, limit: nat) {
    && m >= limit
    && var last := Claimed(Stamped(rows, now, m - limit), now, limit);
       |last| == limit && forall i | 0 <= i < |last| :: Get(fails, last[i].id) >= POISON_FAIL_MAX
  }

  /** Why the loop may stop. */
  ghost predicate MayStop(rows: seq<Article>, now: int, fails: map<int, nat>, m: nat, limit: nat) {
    Drained(Stamped(rows, now, m), now) || AllPoison(rows, now, fails, m, limit)
  }

  lemma LastPass(rows: seq<Article>, now: int, fails: map<int, nat>, m: nat, limit: nat, part: seq<seq<Item>>)
    requires var claimed := Claimed(Stamped(rows, now, m), now, limit);
      Flatten(part) == Kept(fails, claimed) && (part == [] || |claimed| < limit)
    ensures MayStop(rows, now, fails, m + limit, limit)
  {
    var claimed := Claimed(Stamped(rows, now, m), now, limit);
    if |claimed| < limit {
      ClaimSplits(rows, now, m, limit);
      var left := Stamped(rows, now, m + limit);
      forall n ensures Claimed(left, now, n) == [] {
        ShortClaimIsTheLast(Stamped(rows, now, m), now, limit, n);
      }
    } else {
      ClaimedAtMost(Stamped(rows, now, m), now, limit);
      NothingKept(fails, claimed);
    }
  }

  /** One turn of the loop: claim a super-batch, hand it out, and see whether to go on. */
  method ClaimPass(batchSize: nat, limit: nat, ghost rows: seq<Article>, now: int, fails: map<int, nat>,
                   after: seq<Article>, sent: seq<seq<Item>>, ghost m: nat)
      returns (stop: bool, after': seq<Article>, sent': seq<seq<Item>>)
    requires batchSize > 0 && Progress(rows, now, fails, m, after, sent)
    requires Full(rows, now, m) && Sized(sent, batchSize)
    ensures Progress(rows, now, fails, m + limit, after', sent') && Sized(sent', batchSize)
    ensures if stop then MayStop(rows, now, fails, m + limit, limit) else Full(rows, now, m + limit)
  {
    var claimed := Claimed(after, now, limit);
    var part := HandOut(claimed, batchSize, fails);
    PassExtends(rows, now, fails, m, after, sent, limit, part);
    after', sent' := Stamped(after, now, limit), sent + part;
    stop := part == [] || |claimed| < limit;
    if stop {
      LastPass(rows, now, fails, m, limit, part);
    } else {
      StaysFull(rows, now, m, limit);
    }
  }

  /** Row `r` is stamped if it was taken, and sent if it was taken and healthy. */
  ghost predicate Dealt(rows: seq<Article>, now: int, fails: map<int, nat>, m: nat,
                        after: seq<Article>, sent: seq<seq<Item>>, r: nat)
    requires r < |rows|
  {
    && r < |after|
    && after[r] == (if Taken(rows, now, m, r) then rows[r].(embedAt := Some(now)) else rows[r])
    && (Item(rows[r].id, rows[r].text) in Flatten(sent) <==>
        Taken(rows, now, m, r) && Get(fails, rows[r].id) < 3)
  }

  /** The claim loop of one run at one instant, rows returned in id order: it ends, and
      what it sends is the healthy part of the first `m` claimable rows, each once, in
      pieces of at most `batchSize`. It stops early only after a full super-batch in
      which every row was poison; otherwise nothing claimable is left. */
  method ClaimLoop(batchSize: nat, limit: nat, rows: seq<Article>, now: int, fails: map<int, nat>)
      returns (sent: seq<seq<Item>>, after: seq<Article>, ghost m: nat)
    requires batchSize > 0 && limit > 0 && Ordered(rows)
    ensures Progress(rows, now, fails, m, after, sent)
    ensures DistinctIds(Flatten(sent)) && Sized(sent, batchSize)
    ensures MayStop(rows, now, fails, m, limit)
    ensures |after| == |rows| && forall r | 0 <= r < |rows| :: Dealt(rows, now, fails, m, after, sent, r)
  {
    sent, after, m := [], rows, 0;
    while true
      invariant Progress(rows, now, fails, m, after, sent) && Full(rows, now, m) && Sized(sent, batchSize)
      decreases |rows| - m
    {
      var stop;
      stop, after, sent := ClaimPass(batchSize, limit, rows, now, fails, after, sent, m);
      m := m + limit;
      if stop {
        SentOnce(rows, now, m, fails);
        forall r | 0 <= r < |rows| ensures Dealt(rows, now, fails, m, after, sent, r) {
          SentExactly(rows, now, fails, m, after, sent, r);
        }
        StampedKeeps(rows, now, m);
        return;
      }
    }
  }

  lemma SentExactly(rows: seq<Article>, now: int, fails: map<int, nat>, m: nat,
                    after: seq<Article>, sent: seq<seq<Item>>, r: nat)
    requires Ordered(rows) && r < |rows| && Progress(rows, now, fails, m, after, sent)
    ensures Dealt(rows, now, fails, m, after, sent, r)
  {
    StampedExactly(rows, now, m, r);
    ClaimedExactly(rows, now, m, r);
    ClaimedAreRows(rows, now, m);
    KeptArePart(fails, Claimed(rows, now, m));
  }

  lemma SentOnce(rows: seq<Article>, now: int, m: nat, fails: map<int, nat>)
    requires Ordered(rows)
    ensures DistinctIds(Kept(fails, Claimed(rows, now, m)))
  {
    ClaimedAreRows(rows, now, m);
    KeptArePart(fails, Claimed(rows, now, m));
  }

  lemma {:induction false} NothingKept(m: map<int, nat>, items: seq<Item>)
    requires Kept(m, items) == []
    ensures forall i | 0 <= i < |items| :: Get(m, items[i].id) >= POISON_FAIL_MAX
  {
    if items != [] {
      NothingKept(m, items[1..]);
    }
  }
}
