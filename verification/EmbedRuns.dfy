/** Whole runs of the embedding pipeline of one ZIM: the claim loop, its tasks, the
    provider, the indexer and the pipelines of other ZIMs interleave freely, and the
    pipeline is started again and again. */
module EmbedRuns {
  import opened Wrappers
  import opened EmbedClient
  import opened EmbedPipeline

  /** A task waits for its reply, then for its bulk write. */
  datatype Phase = Sent | Ready(reply: seq<EmbedData>, vectors: seq<Vector>) | Finished
  datatype Task = Task(items: seq<Item>, phase: Phase)

  /** The claim loop: about to claim, handing out sub-batches, holding one that passed
      the poison filter until a permit is free, or over. */
  datatype Loop =
    | Claiming
    | Splitting(batches: seq<seq<Item>>, spawned: bool, short: bool)
    | Holding(kept: seq<Item>, rest: seq<seq<Item>>, short: bool)
    | Draining

  /** History: one request and its reply. */
  datatype Exchange = Exchange(texts: seq<string>, reply: Result<seq<EmbedData>, EmbedError>)

  datatype State = State(
    rows: seq<Article>, serial: int, fails: map<int, nat>, loop: Loop, tasks: seq<Task>, now: int,
    cleared: bool,              // history: the poison map was cleared at its cap
    sends: map<int, nat>,       // history: times a row was sent
    taken: set<Item>,           // history: rows and texts that claims returned
    sources: map<int, string>,  // history: the text each stored vector was made from
    log: seq<Exchange>)

  /** `mine` tells the article ids of this ZIM. */
  datatype Config = Config(batchSize: nat, maxConcurrency: nat, mine: int -> bool)

  datatype Action =
    | Tick(dt: nat)
    | Claim(order: seq<Item>) | ClaimFails
    | Filter | Spawn | EndPass | Restart
    | Reply(k: nat, reply: Result<seq<EmbedData>, EmbedError>)
    | Store(k: nat) | StoreFails(k: nat)
    // the indexer
    | Rewrite(id: int, text: string) | Delete(r: nat) | Insert(id: int, text: string)
    // pipelines of other ZIMs, on the shared counters
    | OtherCounts(m: map<int, nat>) | OtherClears

  predicate Sane(c: Config) {
    0 < c.batchSize <= I64_MAX && 0 < c.maxConcurrency <= I64_MAX
  }

  function Limit(c: Config): nat
    requires Sane(c)
  {
    ClaimLimitFor(c.batchSize, c.maxConcurrency)
  }

  function Texts(items: seq<Item>): seq<string> {
    seq(|items|, i requires 0 <= i < |items| => items[i].text)
  }

  function Ids(items: seq<Item>): seq<int> {
    seq(|items|, i requires 0 <= i < |items| => items[i].id)
  }

  predicate HasId(items: seq<Item>, id: int) {
    exists i | 0 <= i < |items| :: items[i].id == id
  }

  function Get(m: map<int, nat>, id: int): nat {
    if id in m then m[id] else 0
  }

  /** One more for each item: the failure counters and the send counters. */
  function Bump(m: map<int, nat>, items: seq<Item>): map<int, nat>
    decreases |items|
  {
    if items == [] then m
    else Bump(m[items[0].id := Get(m, items[0].id) + 1], items[1..])
  }

  function Forget(m: map<int, nat>, items: seq<Item>): map<int, nat> {
    m - (set i | 0 <= i < |items| :: items[i].id)
  }

  /** The poison filter. */
  function Kept(m: map<int, nat>, items: seq<Item>): (kept: seq<Item>)
    ensures |kept| <= |items|
  {
    if items == [] then []
    else if Get(m, items[0].id) < POISON_FAIL_MAX then [items[0]] + Kept(m, items[1..])
    else Kept(m, items[1..])
  }

  /** The permits of a run only delay its tasks and are not modelled; a new run may start
      while tasks of an earlier one, which a failed claim ended, are still at work. */
  ghost predicate Enabled(c: Config, s: State, a: Action)
    requires Sane(c)
  {
    match a
    case Tick(_) => true
    case Claim(order) => s.loop.Claiming? && Arrangement(order, Claimed(s.rows, s.now, Limit(c)))
    case ClaimFails => s.loop.Claiming?
    case Filter => s.loop.Splitting? && s.loop.batches != []
    case Spawn => s.loop.Holding?
    case EndPass => s.loop.Splitting? && s.loop.batches == []
    case Restart => s.loop.Draining?
    case Reply(k, _) => k < |s.tasks| && s.tasks[k].phase.Sent?
    case Store(k) => k < |s.tasks| && s.tasks[k].phase.Ready? && s.tasks[k].items != []
                     && |s.tasks[k].phase.vectors| == |s.tasks[k].items|
    case StoreFails(k) => k < |s.tasks| && s.tasks[k].phase.Ready?
    case Rewrite(_, _) => true
    case Delete(r) => r < |s.rows|
    case Insert(id, _) => id > s.serial
    case OtherCounts(m) => forall id | c.mine(id) :: Get(m, id) == Get(s.fails, id)
    case OtherClears => OverCap(s)
  }

  function Finish(tasks: seq<Task>, k: nat): seq<Task>
    requires k < |tasks|
  {
    tasks[k := tasks[k].(phase := Finished)]
  }

  /** The upsert of a re-index: the text changes in place, vector and stamp stay. */
  function Rewritten(rows: seq<Article>, id: int, text: string): (out: seq<Article>)
    ensures |out| == |rows|
    ensures forall r | 0 <= r < |rows| :: out[r] == if rows[r].id == id then rows[r].(text := text) else rows[r]
  {
    seq(|rows|, r requires 0 <= r < |rows| => if rows[r].id == id then rows[r].(text := text) else rows[r])
  }

  function ItemSet(items: seq<Item>): set<Item> {
    set it | it in items
  }

  /** The texts of a stored task, by row. */
  function Sources(items: seq<Item>): map<int, string> {
    map i | i in Ids(items) :: items[IndexOf(items, i)].text
  }

  function IndexOf(items: seq<Item>, id: int): (i: nat)
    requires id in Ids(items)
    ensures i < |items| && items[i].id == id
  {
    if items[0].id == id then 0
    else
      assert forall x <- Ids(items) | x != items[0].id :: x in Ids(items[1..]) by {
        forall x <- Ids(items) | x != items[0].id ensures x in Ids(items[1..]) {
          var k :| 0 <= k < |items| && items[k].id == x;
          assert Ids(items[1..])[k - 1] == x;
        }
      }
      1 + IndexOf(items[1..], id)
  }

  /** The reply passes the index check and the count guard. */
  predicate Accepted(items: seq<Item>, reply: Result<seq<EmbedData>, EmbedError>) {
    EmbedChunk(reply).Ok? && |EmbedChunk(reply).value| == |items|
  }

  ghost function NextRows(c: Config, s: State, a: Action): seq<Article>
    requires Sane(c) && Enabled(c, s, a)
  {
    match a
    case Claim(order) => if order == [] then s.rows else Stamped(s.rows, s.now, Limit(c))
    case Store(k) =>
      BulkWrite(s.rows, BulkUpdateSql(Ids(s.tasks[k].items)).value, s.tasks[k].phase.vectors, s.now)
    case Rewrite(id, text) => Rewritten(s.rows, id, text)
    case Delete(r) => s.rows[..r] + s.rows[r + 1..]
    case Insert(id, text) => s.rows + [Article(id, text, None, None)]
    case _ => s.rows
  }

  predicate OverCap(s: State) {
    |s.fails| > POISON_FAIL_MAP_CAP
  }

  function Filtered(s: State): map<int, nat> {
    if OverCap(s) then map[] else s.fails
  }

  ghost function NextLoop(c: Config, s: State, a: Action): Loop
    requires Sane(c) && Enabled(c, s, a)
  {
    match a
    case Claim(order) =>
      if order == [] then Draining else Splitting(Chunks(order, c.batchSize), false, |order| < Limit(c))
    case ClaimFails => Draining
    case Filter =>
      var kept, rest := Kept(Filtered(s), s.loop.batches[0]), s.loop.batches[1..];
      if kept == [] then s.loop.(batches := rest) else Holding(kept, rest, s.loop.short)
    case Spawn => Splitting(s.loop.rest, true, s.loop.short)
    case EndPass => if !s.loop.spawned || s.loop.short then Draining else Claiming
    case Restart => Claiming
    case _ => s.loop
  }

  ghost function NextTasks(c: Config, s: State, a: Action): seq<Task>
    requires Sane(c) && Enabled(c, s, a)
  {
    match a
    case Spawn => s.tasks + [Task(s.loop.kept, Sent)]
    case Reply(k, reply) =>
      if !Accepted(s.tasks[k].items, reply) then Finish(s.tasks, k)
      else s.tasks[k := s.tasks[k].(phase := Ready(reply.value, EmbedChunk(reply).value))]
    case Store(k) => Finish(s.tasks, k)
    case StoreFails(k) => Finish(s.tasks, k)
    case _ => s.tasks
  }

  ghost function NextFails(c: Config, s: State, a: Action): map<int, nat>
    requires Sane(c) && Enabled(c, s, a)
  {
    match a
    case Filter => Filtered(s)
    case Reply(k, reply) =>
      if Accepted(s.tasks[k].items, reply) then s.fails else Bump(s.fails, s.tasks[k].items)
    case Store(k) => Forget(s.fails, s.tasks[k].items)
    case StoreFails(k) => Bump(s.fails, s.tasks[k].items)
    case OtherCounts(m) => m
    case OtherClears => map[]
    case _ => s.fails
  }

  ghost function Next(c: Config, s: State, a: Action): State
    requires Sane(c) && Enabled(c, s, a)
  {
    State(
      NextRows(c, s, a),
      if a.Insert? then a.id else s.serial,
      NextFails(c, s, a),
      NextLoop(c, s, a),
      NextTasks(c, s, a),
      if a.Tick? then s.now + a.dt else s.now,
      s.cleared || (a.Filter? && OverCap(s)) || a.OtherClears?,
      if a.Spawn? then Bump(s.sends, s.loop.kept) else s.sends,
      if a.Claim? then s.taken + ItemSet(a.order) else s.taken,
      if a.Store? then s.sources + Sources(s.tasks[a.k].items) else s.sources,
      if a.Reply? then s.log + [Exchange(Texts(s.tasks[a.k].items), a.reply)] else s.log)
  }

  // ---- End-to-end alignment ----------------------------------------------------------------

  /** Entry `i` of the exchange asked for `text` and its reply labelled `v` with `i`; the
      labels of that reply are a permutation, so the entry is the only one. */
  predicate From(e: Exchange, i: nat, text: string, v: Vector) {
    && i < |e.texts| && e.texts[i] == text
    && e.reply.Ok? && multiset(Labels(e.reply.value)) == multiset(UpTo(|e.reply.value|))
    && EmbedData(i, v) in e.reply.value
  }

  /** The row's vector is the one some reply labelled for `text`. */
  ghost predicate Provenance(log: seq<Exchange>, text: string, a: Article) {
    a.embedding.Some? && exists e, i: nat | 0 <= e < |log| :: From(log[e], i, text, a.embedding.value)
  }

  predicate BatchOk(c: Config, taken: set<Item>, items: seq<Item>) {
    && 0 < |items| <= c.batchSize && DistinctIds(items)
    && (forall i | 0 <= i < |items| :: items[i] in taken)
  }

  predicate LoopOk(c: Config, taken: set<Item>, loop: Loop) {
    match loop
    case Splitting(bs, _, _) => forall i | 0 <= i < |bs| :: BatchOk(c, taken, bs[i])
    case Holding(kept, rest, _) =>
      BatchOk(c, taken, kept) && forall i | 0 <= i < |rest| :: BatchOk(c, taken, rest[i])
    case _ => true
  }

  predicate TaskOk(c: Config, taken: set<Item>, log: seq<Exchange>, t: Task) {
    && BatchOk(c, taken, t.items)
    && (t.phase.Ready? ==>
          && |t.phase.vectors| == |t.items|
          && EmbedChunk(Ok(t.phase.reply)) == Ok(t.phase.vectors)
          && Exchange(Texts(t.items), Ok(t.phase.reply)) in log)
  }

  /** A stored vector was made from a text the row had at a claim. */
  ghost predicate Sourced(s: State, a: Article) {
    a.id in s.sources ==>
      Item(a.id, s.sources[a.id]) in s.taken && Provenance(s.log, s.sources[a.id], a)
  }

  /** Article ids come from a sequence: none is used again. */
  ghost predicate IdsOk(s: State) {
    && Ordered(s.rows)
    && (forall r | 0 <= r < |s.rows| :: s.rows[r].id <= s.serial)
    && (forall it <- s.taken :: it.id <= s.serial)
    && (forall id <- s.sources :: id <= s.serial)
  }

  ghost predicate Inv(c: Config, s: State) {
    && IdsOk(s)
    && LoopOk(c, s.taken, s.loop)
    && (forall k | 0 <= k < |s.tasks| :: TaskOk(c, s.taken, s.log, s.tasks[k]))
    && (forall r | 0 <= r < |s.rows| :: Sourced(s, s.rows[r]))
  }

  lemma {:induction false} ChunksAreParts(items: seq<Item>, size: nat, b: nat)
    requires size > 0 && DistinctIds(items) && b < |Chunks(items, size)|
    ensures DistinctIds(Chunks(items, size)[b])
    ensures forall it <- Chunks(items, size)[b] :: it in items
  {
    if |items| > size && b > 0 {
      ChunksAreParts(items[size..], size, b - 1);
      assert forall it <- items[size..] :: it in items;
    }
  }

  lemma {:induction false} KeptArePart(m: map<int, nat>, items: seq<Item>)
    requires DistinctIds(items)
    ensures DistinctIds(Kept(m, items))
    ensures forall it <- Kept(m, items) :: it in items && Get(m, it.id) < POISON_FAIL_MAX
    ensures forall it <- items :: Get(m, it.id) < POISON_FAIL_MAX ==> it in Kept(m, items)
  {
    if items != [] {
      KeptArePart(m, items[1..]);
      var rest := Kept(m, items[1..]);
      forall i | 0 <= i < |rest| ensures rest[i].id != items[0].id {
        assert rest[i] in items[1..];
      }
    }
  }

  lemma MoreTaken(c: Config, s: State, taken: set<Item>)
    requires Inv(c, s) && s.taken <= taken
    ensures LoopOk(c, taken, s.loop)
    ensures forall k | 0 <= k < |s.tasks| :: TaskOk(c, taken, s.log, s.tasks[k])
  {
    forall k | 0 <= k < |s.tasks| ensures TaskOk(c, taken, s.log, s.tasks[k]) {
      assert TaskOk(c, s.taken, s.log, s.tasks[k]);
    }
  }

  lemma ClaimKeepsIds(c: Config, s: State, order: seq<Item>)
    requires Sane(c) && IdsOk(s) && Enabled(c, s, Claim(order))
    ensures IdsOk(Next(c, s, Claim(order)))
  {
    var t := Next(c, s, Claim(order));
    StampedKeeps(s.rows, s.now, Limit(c));
    ClaimedAreRows(s.rows, s.now, Limit(c));
    forall it <- t.taken ensures it.id <= t.serial {
      if it in order {
        assert FromClaimable(s.rows, s.now, it);
      }
    }
  }

  lemma ClaimKeepsInv(c: Config, s: State, order: seq<Item>)
    requires Sane(c) && Inv(c, s) && Enabled(c, s, Claim(order))
    ensures Inv(c, Next(c, s, Claim(order)))
  {
    var t := Next(c, s, Claim(order));
    ClaimKeepsIds(c, s, order);
    StampedKeeps(s.rows, s.now, Limit(c));
    MoreTaken(c, s, t.taken);
    if order != [] {
      var bs := Chunks(order, c.batchSize);
      forall b | 0 <= b < |bs| ensures BatchOk(c, t.taken, bs[b]) {
        ChunksAreParts(order, c.batchSize, b);
        assert bs[b] in bs;
      }
    }
    forall r | 0 <= r < |t.rows| ensures Sourced(t, t.rows[r]) {
      assert Sourced(s, s.rows[r]);
    }
  }

  lemma FilterKeepsInv(c: Config, s: State)
    requires Sane(c) && Inv(c, s) && Enabled(c, s, Filter)
    ensures Inv(c, Next(c, s, Filter))
  {
    var t := Next(c, s, Filter);
    var b := s.loop.batches[0];
    assert BatchOk(c, s.taken, b);
    KeptArePart(t.fails, b);
    var kept := Kept(t.fails, b);
    forall i | 0 <= i < |kept| ensures kept[i] in s.taken {
      assert kept[i] in b;
    }
    forall i | 0 <= i < |s.loop.batches| - 1 ensures BatchOk(c, s.taken, s.loop.batches[1..][i]) {
      assert s.loop.batches[1..][i] == s.loop.batches[i + 1];
    }
    forall r | 0 <= r < |t.rows| ensures Sourced(t, t.rows[r]) {
      assert Sourced(s, s.rows[r]);
    }
  }

  lemma LaterLogKeeps(log: seq<Exchange>, e: Exchange, text: string, a: Article)
    requires Provenance(log, text, a)
    ensures Provenance(log + [e], text, a)
  {
    var k, i: nat :| 0 <= k < |log| && From(log[k], i, text, a.embedding.value);
    assert (log + [e])[k] == log[k];
  }

  lemma ReplyKeepsInv(c: Config, s: State, k: nat, reply: Result<seq<EmbedData>, EmbedError>)
    requires Sane(c) && Inv(c, s) && Enabled(c, s, Reply(k, reply))
    ensures Inv(c, Next(c, s, Reply(k, reply)))
  {
    var t := Next(c, s, Reply(k, reply));
    var e := Exchange(Texts(s.tasks[k].items), reply);
    assert t.log == s.log + [e] && e in t.log;
    forall j | 0 <= j < |t.tasks| ensures TaskOk(c, t.taken, t.log, t.tasks[j]) {
      assert TaskOk(c, s.taken, s.log, s.tasks[j]);
    }
    forall r | 0 <= r < |t.rows| ensures Sourced(t, t.rows[r]) {
      assert Sourced(s, s.rows[r]);
      if s.rows[r].id in s.sources {
        LaterLogKeeps(s.log, e, s.sources[s.rows[r].id], s.rows[r]);
      }
    }
  }

  /** The bulk write pairs each id with the vector at its own position, and leaves
      every other row alone. */
  lemma BulkWriteIsPositional(rows: seq<Article>, items: seq<Item>, vectors: seq<Vector>, now: int)
    requires items != [] && DistinctIds(items) && |vectors| == |items|
    ensures var out := BulkWrite(rows, BulkUpdateSql(Ids(items)).value, vectors, now);
      && (forall r, i | 0 <= r < |rows| && 0 <= i < |items| && rows[r].id == items[i].id ::
            out[r] == rows[r].(embedding := Some(vectors[i]), embedAt := Some(now)))
      && (forall r | 0 <= r < |rows| && !HasId(items, rows[r].id) :: out[r] == rows[r])
  {
    var pairs := BulkUpdateSql(Ids(items)).value;
    forall r, i | 0 <= r < |rows| && 0 <= i < |items| && rows[r].id == items[i].id
      ensures Bound(pairs, vectors, rows[r].id) == Some(vectors[i])
    {
      BoundIs(pairs, vectors, i);
    }
    forall r | 0 <= r < |rows| && !HasId(items, rows[r].id)
      ensures Bound(pairs, vectors, rows[r].id) == None
    {
      BoundIsNone(pairs, vectors, rows[r].id);
    }
  }

  /** A task that passed the store guard holds, at position `i`, the vector its reply
      labelled `i` for the text it sent at position `i`. */
  lemma ReadyTaskIsAligned(c: Config, s: State, k: nat, i: nat)
    requires Inv(c, s) && k < |s.tasks| && s.tasks[k].phase.Ready? && i < |s.tasks[k].items|
    ensures |s.tasks[k].phase.vectors| == |s.tasks[k].items|
    ensures exists e | 0 <= e < |s.log| ::
      From(s.log[e], i, s.tasks[k].items[i].text, s.tasks[k].phase.vectors[i])
  {
    var t := s.tasks[k];
    assert TaskOk(c, s.taken, s.log, t);
    var reply, vs := t.phase.reply, t.phase.vectors;
    AcceptedExactlyWhenPermuted(reply);
    SortSorts(reply);
    SameElements(Sort(reply), reply);
    assert Sort(reply)[i] == EmbedData(i, vs[i]);
    assert Sort(reply)[i] in reply;
    var e :| 0 <= e < |s.log| && s.log[e] == Exchange(Texts(t.items), Ok(reply));
    assert From(s.log[e], i, t.items[i].text, vs[i]);
  }

  /** A stored row's source is the text of its item. */
  lemma SourceOf(items: seq<Item>, i: nat)
    requires DistinctIds(items) && i < |items|
    ensures items[i].id in Sources(items) && Sources(items)[items[i].id] == items[i].text
  {
    assert Ids(items)[i] == items[i].id;
    assert IndexOf(items, items[i].id) == i;
  }

  lemma NoSource(items: seq<Item>, id: int)
    requires !HasId(items, id)
    ensures id !in Sources(items)
  {
    assert forall i | 0 <= i < |items| :: Ids(items)[i] == items[i].id;
  }

  lemma StoredRow(c: Config, s: State, k: nat, r: nat)
    requires Sane(c) && Inv(c, s) && Enabled(c, s, Store(k)) && r < |s.rows|
    ensures Sourced(Next(c, s, Store(k)), Next(c, s, Store(k)).rows[r])
  {
    var task, id := s.tasks[k], s.rows[r].id;
    assert TaskOk(c, s.taken, s.log, task);
    BulkWriteIsPositional(s.rows, task.items, task.phase.vectors, s.now);
    if i: nat :| i < |task.items| && task.items[i].id == id {
      ReadyTaskIsAligned(c, s, k, i);
      SourceOf(task.items, i);
      assert task.items[i] == Item(id, task.items[i].text);
    } else {
      NoSource(task.items, id);
      assert Sourced(s, s.rows[r]);
    }
  }

  lemma StoreKeepsInv(c: Config, s: State, k: nat)
    requires Sane(c) && Inv(c, s) && Enabled(c, s, Store(k))
    ensures Inv(c, Next(c, s, Store(k)))
  {
    var t := Next(c, s, Store(k));
    forall j | 0 <= j < |t.tasks| ensures TaskOk(c, t.taken, t.log, t.tasks[j]) {
      assert TaskOk(c, s.taken, s.log, s.tasks[j]);
    }
    forall r | 0 <= r < |t.rows| ensures Sourced(t, t.rows[r]) {
      StoredRow(c, s, k, r);
    }
    StoreKeepsIds(c, s, k);
  }

  lemma StoreKeepsIds(c: Config, s: State, k: nat)
    requires Sane(c) && Inv(c, s) && Enabled(c, s, Store(k))
    ensures IdsOk(Next(c, s, Store(k)))
  {
    var t, items := Next(c, s, Store(k)), s.tasks[k].items;
    assert TaskOk(c, s.taken, s.log, s.tasks[k]);
    assert forall r | 0 <= r < |t.rows| :: t.rows[r].id == s.rows[r].id;
    forall id <- t.sources ensures id <= t.serial {
      if id in Sources(items) {
        assert items[IndexOf(items, id)] in s.taken;
      }
    }
  }

  /** What the indexer and other pipelines do. */
  lemma OutsideKeepsInv(c: Config, s: State, a: Action)
    requires Sane(c) && Inv(c, s) && Enabled(c, s, a)
    requires a.Rewrite? || a.Delete? || a.Insert? || a.OtherCounts? || a.OtherClears?
    ensures Inv(c, Next(c, s, a))
  {
    var t := Next(c, s, a);
    OutsideKeepsIds(c, s, a);
    forall r | 0 <= r < |t.rows| ensures Sourced(t, t.rows[r]) {
      OutsideKeepsSource(c, s, a, r);
    }
  }

  lemma OutsideKeepsIds(c: Config, s: State, a: Action)
    requires Sane(c) && IdsOk(s) && Enabled(c, s, a)
    requires a.Rewrite? || a.Delete? || a.Insert? || a.OtherCounts? || a.OtherClears?
    ensures IdsOk(Next(c, s, a))
  {
    match a
    case Delete(r) => OrderedWithout(s.rows, r, s.serial);
    case Insert(_, _) => InsertKeepsIds(c, s, a);
    case _ =>
  }

  lemma InsertKeepsIds(c: Config, s: State, a: Action)
    requires Sane(c) && IdsOk(s) && Enabled(c, s, a) && a.Insert?
    ensures IdsOk(Next(c, s, a))
  {
    OrderedWith(s.rows, Article(a.id, a.text, None, None), s.serial);
  }

  lemma OrderedWithout(rows: seq<Article>, r: nat, serial: int)
    requires Ordered(rows) && r < |rows| && forall q | 0 <= q < |rows| :: rows[q].id <= serial
    ensures var out := rows[..r] + rows[r + 1..];
      Ordered(out) && forall q | 0 <= q < |out| :: out[q].id <= serial
  {
    var out := rows[..r] + rows[r + 1..];
    assert forall q | 0 <= q < |out| :: out[q] == if q < r then rows[q] else rows[q + 1];
  }

  lemma OrderedWith(rows: seq<Article>, a: Article, serial: int)
    requires Ordered(rows) && a.id > serial && forall q | 0 <= q < |rows| :: rows[q].id <= serial
    ensures var out := rows + [a];
      Ordered(out) && forall q | 0 <= q < |out| :: out[q].id <= a.id
  {
  }

  lemma OutsideKeepsSource(c: Config, s: State, a: Action, r: nat)
    requires Sane(c) && Inv(c, s) && Enabled(c, s, a) && r < |Next(c, s, a).rows|
    requires a.Rewrite? || a.Delete? || a.Insert? || a.OtherCounts? || a.OtherClears?
    ensures Sourced(Next(c, s, a), Next(c, s, a).rows[r])
  {
    var q := if a.Delete? && r >= a.r then r + 1 else r;
    if q < |s.rows| {
      assert Sourced(s, s.rows[q]);
    }
  }

  lemma StepKeepsInv(c: Config, s: State, a: Action)
    requires Sane(c) && Inv(c, s) && Enabled(c, s, a)
    ensures Inv(c, Next(c, s, a))
  {
    match a
    case Claim(order) => ClaimKeepsInv(c, s, order);
    case Filter => FilterKeepsInv(c, s);
    case Reply(k, reply) => ReplyKeepsInv(c, s, k, reply);
    case Store(k) => StoreKeepsInv(c, s, k);
    case Rewrite(_, _) => OutsideKeepsInv(c, s, a);
    case Delete(_) => OutsideKeepsInv(c, s, a);
    case Insert(_, _) => OutsideKeepsInv(c, s, a);
    case OtherCounts(_) => OutsideKeepsInv(c, s, a);
    case OtherClears => OutsideKeepsInv(c, s, a);
    case _ => InnerKeepsInv(c, s, a);
  }

  lemma InnerKeepsInv(c: Config, s: State, a: Action)
    requires Sane(c) && Inv(c, s) && Enabled(c, s, a)
    requires a.Tick? || a.ClaimFails? || a.Spawn? || a.EndPass? || a.Restart? || a.StoreFails?
    ensures Inv(c, Next(c, s, a))
  {
    var t := Next(c, s, a);
    forall j | 0 <= j < |t.tasks| ensures TaskOk(c, t.taken, t.log, t.tasks[j]) {
      assert j < |s.tasks| ==> TaskOk(c, s.taken, s.log, s.tasks[j]);
    }
    forall r | 0 <= r < |t.rows| ensures Sourced(t, t.rows[r]) {
      assert Sourced(s, s.rows[r]);
    }
  }

  ghost predicate Legal(c: Config, s: State, acts: seq<Action>)
    requires Sane(c)
    decreases |acts|
  {
    acts == [] || (Enabled(c, s, acts[0]) && Legal(c, Next(c, s, acts[0]), acts[1..]))
  }

  ghost function Run(c: Config, s: State, acts: seq<Action>): State
    requires Sane(c) && Legal(c, s, acts)
    decreases |acts|
  {
    if acts == [] then s else Run(c, Next(c, s, acts[0]), acts[1..])
  }

  /** In every run, each vector the pipeline wrote to an article is the one a provider
      reply labelled with that article's place in the request, for a text the article had
      when it was claimed; tasks never exceed one chunk. */
  lemma {:induction false} EveryVectorIsItsArticles(c: Config, s: State, acts: seq<Action>)
    requires Sane(c) && Inv(c, s) && Legal(c, s, acts)
    ensures var t := Run(c, s, acts);
      && Inv(c, t)
      && (forall r | 0 <= r < |t.rows| :: Sourced(t, t.rows[r]))
      && (forall k | 0 <= k < |t.tasks| :: Chunks(t.tasks[k].items, c.batchSize) == [t.tasks[k].items])
    decreases |acts|
  {
    if acts == [] {
      forall k | 0 <= k < |s.tasks| ensures Chunks(s.tasks[k].items, c.batchSize) == [s.tasks[k].items] {
        assert TaskOk(c, s.taken, s.log, s.tasks[k]);
      }
    } else {
      StepKeepsInv(c, s, acts[0]);
      EveryVectorIsItsArticles(c, Next(c, s, acts[0]), acts[1..]);
    }
  }

  // ---- When a vector is for the present text ------------------------------------------------

  function TextAfter(a: Action, id: int, text: string): string {
    if a.Rewrite? && a.id == id then a.text else text
  }

  /** The text a row ends up with: what the last re-index in `acts` gave it, if any. */
  function LastText(acts: seq<Action>, id: int, text: string): string
    decreases |acts|
  {
    if acts == [] then text else LastText(acts[1..], id, TextAfter(acts[0], id, text))
  }

  /** The pipeline itself changes neither the rows' ids nor their texts. */
  lemma TextsStay(c: Config, s: State, a: Action, q: nat)
    requires Sane(c) && Enabled(c, s, a) && !a.Rewrite? && !a.Delete? && !a.Insert?
    requires q < |Next(c, s, a).rows|
    ensures q < |s.rows| && Next(c, s, a).rows[q].id == s.rows[q].id && Next(c, s, a).rows[q].text == s.rows[q].text
  {
    if a.Claim? {
      StampedKeeps(s.rows, s.now, Limit(c));
    }
  }

  lemma IndexerAt(c: Config, s: State, a: Action, q: nat) returns (r: nat)
    requires Sane(c) && Inv(c, s) && Enabled(c, s, a) && (a.Rewrite? || a.Delete? || a.Insert?)
    requires q < |Next(c, s, a).rows| && Next(c, s, a).rows[q].id <= s.serial
    ensures var b := Next(c, s, a).rows[q];
      r < |s.rows| && s.rows[r].id == b.id && b.text == TextAfter(a, b.id, s.rows[r].text)
  {
    r := if a.Delete? && q >= a.r then q + 1 else q;
  }

  /** Rows are only made by inserting, and only rewriting changes their text. */
  lemma RowBefore(c: Config, s: State, a: Action, q: nat) returns (r: nat)
    requires Sane(c) && Inv(c, s) && Enabled(c, s, a)
    requires q < |Next(c, s, a).rows| && Next(c, s, a).rows[q].id <= s.serial
    ensures var b := Next(c, s, a).rows[q];
      r < |s.rows| && s.rows[r].id == b.id && b.text == TextAfter(a, b.id, s.rows[r].text)
  {
    if a.Rewrite? || a.Delete? || a.Insert? {
      r := IndexerAt(c, s, a, q);
    } else {
      TextsStay(c, s, a, q);
      r := q;
    }
  }

  lemma {:induction false} TextFollows(c: Config, s: State, acts: seq<Action>, b: Article) returns (r: nat)
    requires Sane(c) && Inv(c, s) && Legal(c, s, acts) && b in Run(c, s, acts).rows && b.id <= s.serial
    ensures r < |s.rows| && s.rows[r].id == b.id && b.text == LastText(acts, b.id, s.rows[r].text)
    decreases |acts|
  {
    if acts == [] {
      r :| 0 <= r < |s.rows| && s.rows[r] == b;
    } else {
      var t := Next(c, s, acts[0]);
      StepKeepsInv(c, s, acts[0]);
      SerialGrows(c, s, acts[0]);
      var q := TextFollows(c, t, acts[1..], b);
      r := RowBefore(c, s, acts[0], q);
    }
  }

  lemma SerialGrows(c: Config, s: State, a: Action)
    requires Sane(c) && Enabled(c, s, a)
    ensures s.serial <= Next(c, s, a).serial
  {
  }

  lemma {:induction false} RunSplits(c: Config, s: State, acts: seq<Action>, p: nat)
    requires Sane(c) && Legal(c, s, acts) && p <= |acts|
    ensures Legal(c, s, acts[..p]) && Legal(c, Run(c, s, acts[..p]), acts[p..])
    ensures Run(c, s, acts) == Run(c, Run(c, s, acts[..p]), acts[p..])
    decreases |acts|
  {
    if p > 0 {
      RunSplits(c, Next(c, s, acts[0]), acts[1..], p - 1);
      assert acts[..p][1..] == acts[1..][..p - 1] && acts[1..][p - 1..] == acts[p..];
    }
  }

  /** An item in custody or behind a vector was returned by a claim, and was the row's
      text at that moment. */
  ghost predicate ClaimedAt(c: Config, s: State, acts: seq<Action>, it: Item, p: nat)
    requires Sane(c) && Legal(c, s, acts)
  {
    && p < |acts| && acts[p].Claim? && it in acts[p].order
    && Legal(c, s, acts[..p]) && FromTable(Run(c, s, acts[..p]).rows, it)
  }

  lemma {:induction false} TakenAtAClaim(c: Config, s: State, acts: seq<Action>, it: Item) returns (p: nat)
    requires Sane(c) && Inv(c, s) && Legal(c, s, acts) && it in Run(c, s, acts).taken && it !in s.taken
    ensures ClaimedAt(c, s, acts, it, p)
    decreases |acts|
  {
    var t := Next(c, s, acts[0]);
    if it in t.taken {
      p := 0;
      assert acts[0].Claim?;
      ClaimedAreRows(s.rows, s.now, Limit(c));
      assert FromClaimable(s.rows, s.now, it);
      assert acts[..0] == [];
    } else {
      StepKeepsInv(c, s, acts[0]);
      var q := TakenAtAClaim(c, t, acts[1..], it);
      p := q + 1;
      assert acts[..p][1..] == acts[1..][..q];
    }
  }

  /** In a run from a process start: behind each stored vector is a claim at which the row
      had the vector's text, and the vector is for the row's present text exactly when the
      re-indexes that came after that claim, if any, left the row with that text. */
  lemma VectorIsCurrentExactly(c: Config, s: State, acts: seq<Action>, a: Article) returns (p: nat)
    requires Sane(c) && Inv(c, s) && s.taken == {} && Legal(c, s, acts)
    requires a in Run(c, s, acts).rows && a.id in Run(c, s, acts).sources
    ensures var text := Run(c, s, acts).sources[a.id];
      && Provenance(Run(c, s, acts).log, text, a)
      && ClaimedAt(c, s, acts, Item(a.id, text), p)
      && (a.text == text <==> LastText(acts[p..], a.id, text) == text)
  {
    EveryVectorIsItsArticles(c, s, acts);
    var t := Run(c, s, acts);
    var q :| 0 <= q < |t.rows| && t.rows[q] == a;
    assert Sourced(t, t.rows[q]);
    var it := Item(a.id, t.sources[a.id]);
    p := TakenAtAClaim(c, s, acts, it);
    TextSinceClaim(c, s, acts, it, p, a);
  }

  /** A row's text is the claimed one as re-indexed since. */
  lemma TextSinceClaim(c: Config, s: State, acts: seq<Action>, it: Item, p: nat, a: Article)
    requires Sane(c) && Inv(c, s) && Legal(c, s, acts) && ClaimedAt(c, s, acts, it, p)
    requires a in Run(c, s, acts).rows && a.id == it.id
    ensures a.text == LastText(acts[p..], a.id, it.text)
  {
    RunSplits(c, s, acts, p);
    EveryVectorIsItsArticles(c, s, acts[..p]);
    var u := Run(c, s, acts[..p]);
    var q :| 0 <= q < |u.rows| && u.rows[q].id == it.id && u.rows[q].text == it.text;
    var r := TextFollows(c, u, acts[p..], a);
    assert q == r;
  }

  /** Any task about to store can be overtaken by a re-index: the row then has the new text
      and a vector made from the old one. */
  lemma ReindexOvertakesStore(c: Config, s: State, k: nat, i: nat, r: nat, text: string)
    requires Sane(c) && Inv(c, s) && Enabled(c, s, Store(k)) && i < |s.tasks[k].items|
    requires r < |s.rows| && s.rows[r].id == s.tasks[k].items[i].id
    ensures var acts := [Rewrite(s.rows[r].id, text), Store(k)];
      && Legal(c, s, acts)
      && var t := Run(c, s, acts);
         r < |t.rows| && t.rows[r].id in t.sources
         && t.rows[r].text == text && t.sources[t.rows[r].id] == s.tasks[k].items[i].text
  {
    var id, items := s.rows[r].id, s.tasks[k].items;
    var acts := [Rewrite(id, text), Store(k)];
    var u := Next(c, s, acts[0]);
    assert acts[1..] == [Store(k)] && acts[1..][1..] == [];
    assert Enabled(c, u, Store(k));
    assert TaskOk(c, s.taken, s.log, s.tasks[k]);
    SourceOf(items, i);
    var t := Next(c, u, Store(k));
    assert Run(c, u, acts[1..]) == t;
  }

  // ---- What a reply and a store do ------------------------------------------------------------

  lemma AcceptedExactly(items: seq<Item>, reply: Result<seq<EmbedData>, EmbedError>)
    ensures Accepted(items, reply)
            <==> reply.Ok? && multiset(Labels(reply.value)) == multiset(UpTo(|items|))
  {
    if reply.Ok? {
      AcceptedExactlyWhenPermuted(reply.value);
      SortSorts(reply.value);
      assert |multiset(Labels(reply.value))| == |reply.value|;
      assert |multiset(UpTo(|items|))| == |items|;
    }
  }

  /** A reply moves its task on exactly when its labels are 0 up to the number of items, each
      once; every other reply ends the task and counts a failure. */
  lemma ReplyAcceptedExactly(c: Config, s: State, k: nat, reply: Result<seq<EmbedData>, EmbedError>)
    requires Sane(c) && Enabled(c, s, Reply(k, reply))
    ensures var t, items := Next(c, s, Reply(k, reply)), s.tasks[k].items;
      if reply.Ok? && multiset(Labels(reply.value)) == multiset(UpTo(|items|))
      then t.tasks[k].phase.Ready? && t.fails == s.fails
      else t.tasks[k].phase.Finished? && t.fails == Bump(s.fails, items)
  {
    AcceptedExactly(s.tasks[k].items, reply);
  }

  /** A store writes the task's vectors to the rows of its items that still exist, leaves
      every other row alone, ends the task and forgets the items' failures. */
  lemma StoreWritesExactly(c: Config, s: State, k: nat, r: nat)
    requires Sane(c) && Inv(c, s) && Enabled(c, s, Store(k)) && r < |s.rows|
    ensures var t, task := Next(c, s, Store(k)), s.tasks[k];
      && |t.rows| == |s.rows| && t.tasks[k].phase.Finished?
      && (forall i | 0 <= i < |task.items| && task.items[i].id == s.rows[r].id ::
            t.rows[r] == s.rows[r].(embedding := Some(task.phase.vectors[i]), embedAt := Some(s.now)))
      && (!HasId(task.items, s.rows[r].id) ==> t.rows[r] == s.rows[r])
      && (forall i | 0 <= i < |task.items| :: task.items[i].id !in t.fails)
      && (forall id: int | !HasId(task.items, id) :: Get(t.fails, id) == Get(s.fails, id))
  {
    assert TaskOk(c, s.taken, s.log, s.tasks[k]);
    BulkWriteIsPositional(s.rows, s.tasks[k].items, s.tasks[k].phase.vectors, s.now);
  }

  /** The filter bounds the counters: a map above the cap is emptied, and marked so; any other
      is left alone. */
  lemma FilterBoundsTheMap(c: Config, s: State)
    requires Sane(c) && Enabled(c, s, Filter)
    ensures var t := Next(c, s, Filter);
      && |t.fails| <= 100_000
      && (|s.fails| <= 100_000 ==> t.fails == s.fails && t.cleared == s.cleared)
      && (|s.fails| > 100_000 ==> t.fails == map[] && t.cleared)
  {
  }

  // ---- When the loop goes on --------------------------------------------------------------------

  /** Within a pass the loop keeps whether the claim was short, and whether it sent anything. */
  lemma {:induction false} PassRemembers(c: Config, s: State, mid: seq<Action>)
    requires Sane(c) && Legal(c, s, mid) && EndPass !in mid && (s.loop.Splitting? || s.loop.Holding?)
    ensures var l := Run(c, s, mid).loop;
      && (l.Splitting? || l.Holding?) && l.short == s.loop.short
      && (l.Splitting? && s.loop.Holding? ==> l.spawned)
      && (l.Splitting? ==> (l.spawned <==> Spawn in mid || (s.loop.Splitting? && s.loop.spawned)))
    decreases |mid|
  {
    if mid != [] {
      assert mid[0] in mid && forall a <- mid[1..] :: a in mid;
      assert Spawn in mid <==> mid[0] == Spawn || Spawn in mid[1..];
      PassRemembers(c, Next(c, s, mid[0]), mid[1..]);
    }
  }

  /** After a claim, the loop claims again exactly when the claim was full and something was
      sent; an empty claim ends it at once. */
  lemma LoopGoesOnExactly(c: Config, s: State, order: seq<Item>, mid: seq<Action>)
    requires Sane(c) && Enabled(c, s, Claim(order)) && EndPass !in mid
    requires order != [] ==> Legal(c, Next(c, s, Claim(order)), mid + [EndPass])
    ensures order == [] ==> Next(c, s, Claim(order)).loop.Draining?
    ensures order != [] ==>
      var l := Run(c, Next(c, s, Claim(order)), mid + [EndPass]).loop;
      l == if |order| >= Limit(c) && Spawn in mid then Claiming else Draining
  {
    if order != [] {
      var t := Next(c, s, Claim(order));
      RunSplits(c, t, mid + [EndPass], |mid|);
      assert (mid + [EndPass])[..|mid|] == mid && (mid + [EndPass])[|mid|..] == [EndPass];
      PassRemembers(c, t, mid);
      var u := Run(c, t, mid);
      assert [EndPass][1..] == [];
      assert Run(c, u, [EndPass]) == Next(c, u, EndPass);
    }
  }
}
