/** How often a row is sent to the provider: within one claim window, and over its whole
    life, in every run of the pipeline machine; and that the claim loop ends. */
module EmbedRation {
  import opened Numbers
  import opened Wrappers
  import opened EmbedClient
  import opened EmbedPipeline
  import opened EmbedRuns

  /** Sub-batches not yet filtered that contain the row. */
  function Waiting(batches: seq<seq<Item>>, id: int): nat {
    if batches == [] then 0 else One(HasId(batches[0], id)) + Waiting(batches[1..], id)
  }

  function Weight(t: Task, id: int): nat {
    One(!t.phase.Finished? && HasId(t.items, id))
  }

  /** Unfinished tasks that carry the row. */
  function Busy(tasks: seq<Task>, id: int): nat {
    if tasks == [] then 0 else Busy(tasks[..|tasks| - 1], id) + Weight(tasks[|tasks| - 1], id)
  }

  function InLoop(loop: Loop, id: int): nat {
    match loop
    case Splitting(bs, _, _) => Waiting(bs, id)
    case Holding(kept, rest, _) => One(HasId(kept, id)) + Waiting(rest, id)
    case _ => 0
  }

  /** Holds of a row: waiting or held in the loop, or with an unfinished task. */
  function Custody(s: State, id: int): nat {
    InLoop(s.loop, id) + Busy(s.tasks, id)
  }

  lemma {:induction false} BumpCounts(m: map<int, nat>, items: seq<Item>, id: int)
    requires DistinctIds(items)
    ensures Get(Bump(m, items), id) == Get(m, id) + One(HasId(items, id))
    decreases |items|
  {
    if items != [] {
      BumpCounts(m[items[0].id := Get(m, items[0].id) + 1], items[1..], id);
      HasIdSplits(items, id);
    }
  }

  lemma HasIdSplits(items: seq<Item>, id: int)
    requires items != []
    ensures HasId(items, id) <==> items[0].id == id || HasId(items[1..], id)
    ensures DistinctIds(items) && items[0].id == id ==> !HasId(items[1..], id)
  {
    if HasId(items, id) && items[0].id != id {
      var i :| 0 <= i < |items| && items[i].id == id;
      assert items[1..][i - 1].id == id;
    }
    if HasId(items[1..], id) {
      var i :| 0 <= i < |items[1..]| && items[1..][i].id == id;
      assert items[i + 1].id == id;
    }
  }

  lemma {:induction false} BusyAfterUpdate(tasks: seq<Task>, k: nat, t: Task, id: int)
    requires k < |tasks|
    ensures Busy(tasks[k := t], id) + Weight(tasks[k], id) == Busy(tasks, id) + Weight(t, id)
  {
    var n := |tasks| - 1;
    if k < n {
      BusyAfterUpdate(tasks[..n], k, t, id);
      assert tasks[k := t][..n] == tasks[..n][k := t];
    } else {
      assert tasks[k := t][..n] == tasks[..n];
    }
  }

  lemma HasIdConcat(a: seq<Item>, b: seq<Item>, id: int)
    ensures HasId(a + b, id) <==> HasId(a, id) || HasId(b, id)
  {
    if HasId(a, id) {
      var i :| 0 <= i < |a| && a[i].id == id;
      assert (a + b)[i].id == id;
    }
    if HasId(b, id) {
      var i :| 0 <= i < |b| && b[i].id == id;
      assert (a + b)[|a| + i].id == id;
    }
  }

  /** A row is on one side of any cut. */
  lemma OnOneSide(items: seq<Item>, n: nat, id: int)
    requires n <= |items| && DistinctIds(items)
    ensures DistinctIds(items[n..])
    ensures One(HasId(items[..n], id)) + One(HasId(items[n..], id)) == One(HasId(items, id))
  {
    var h, r := items[..n], items[n..];
    assert items == h + r;
    HasIdConcat(h, r, id);
    forall i, j | 0 <= i < |h| && 0 <= j < |r| ensures h[i].id != r[j].id {
      assert h[i] == items[i] && r[j] == items[n + j];
    }
  }

  /** Cutting a claim into pieces puts each of its rows in exactly one of them. */
  lemma {:induction false} WaitingInChunks(items: seq<Item>, size: nat, id: int)
    requires size > 0 && DistinctIds(items)
    ensures Waiting(Chunks(items, size), id) == One(HasId(items, id))
  {
    if |items| > size {
      WaitingInChunks(items[size..], size, id);
      OnOneSide(items, size, id);
      assert Chunks(items, size)[1..] == Chunks(items[size..], size);
    } else if items != [] {
      assert [items][1..] == [];
    }
  }

  /** A row that a claim returns was claimable at that moment. */
  lemma ReturnedWasClaimable(c: Config, s: State, order: seq<Item>, id: int) returns (r: nat)
    requires Sane(c) && Inv(c, s) && Enabled(c, s, Claim(order)) && HasId(order, id)
    ensures r < |s.rows| && s.rows[r].id == id && Claimable(s.rows[r], s.now)
  {
    ClaimedAreRows(s.rows, s.now, Limit(c));
    var i :| 0 <= i < |order| && order[i].id == id;
    assert order[i] in order && FromClaimable(s.rows, s.now, order[i]);
    r :| 0 <= r < |s.rows| && s.rows[r].id == id && s.rows[r].text == order[i].text
         && Claimable(s.rows[r], s.now);
  }

  /** Batches hold only rows that existed when they were claimed. */
  lemma BatchIsOld(c: Config, s: State, items: seq<Item>, id: int)
    requires Inv(c, s) && BatchOk(c, s.taken, items) && HasId(items, id)
    ensures id <= s.serial
  {
    var i :| 0 <= i < |items| && items[i].id == id;
    assert items[i] in s.taken;
  }

  // ---- Once per claim window -----------------------------------------------------------------

  /** Unembedded and not stamped since `start`. */
  predicate Fresh(a: Article, start: int) {
    a.embedding.None? && (a.embedAt.None? || a.embedAt.value < start)
  }

  ghost predicate Unstamped(s: State, id: int, start: int) {
    id > s.serial || exists r | 0 <= r < |s.rows| :: s.rows[r].id == id && Fresh(s.rows[r], start)
  }

  /** A claim stamps every row it returns. */
  lemma {:induction false} ClaimedAreStamped(rows: seq<Article>, now: int, n: nat, it: Item, r: nat)
    requires Ordered(rows) && it in Claimed(rows, now, n) && r < |rows| && rows[r].id == it.id
    ensures |Stamped(rows, now, n)| == |rows| && Stamped(rows, now, n)[r] == rows[r].(embedAt := Some(now))
  {
    var later := rows[1..];
    var k := if Claimable(rows[0], now) then n - 1 else n;
    StampedKeeps(rows, now, n);
    ClaimedAreRows(later, now, k);
    if r == 0 {
      if it in Claimed(later, now, k) {
        FromLaterRow(rows, now, it);
      }
    } else {
      assert later[r - 1] == rows[r] && rows[0].id < rows[r].id;
      ClaimedAreStamped(later, now, k, it, r - 1);
    }
  }

  lemma ReturnedAreStamped(c: Config, s: State, order: seq<Item>, id: int, start: int)
    requires Sane(c) && Inv(c, s) && Enabled(c, s, Claim(order)) && HasId(order, id) && start <= s.now
    ensures !Unstamped(Next(c, s, Claim(order)), id, start)
  {
    var i :| 0 <= i < |order| && order[i].id == id;
    assert order[i] in order && order[i] in Claimed(s.rows, s.now, Limit(c));
    var t := Next(c, s, Claim(order));
    StampedKeeps(s.rows, s.now, Limit(c));
    var q := ReturnedWasClaimable(c, s, order, id);
    forall r | 0 <= r < |t.rows| && t.rows[r].id == id ensures !Fresh(t.rows[r], start) {
      ClaimedAreStamped(s.rows, s.now, Limit(c), order[i], r);
    }
  }

  /** What a row may still cost inside the window. */
  ghost function Due(s: State, id: int, start: int): nat {
    Get(s.sends, id) + InLoop(s.loop, id) + One(Unstamped(s, id, start))
  }

  lemma ClaimIsDue(c: Config, s: State, order: seq<Item>, id: int, start: int)
    requires Sane(c) && Inv(c, s) && Enabled(c, s, Claim(order)) && start <= s.now <= start + CLAIM_WINDOW
    ensures Due(Next(c, s, Claim(order)), id, start) <= Due(s, id, start)
  {
    WaitingInChunks(order, c.batchSize, id);
    ClaimStamps(c, s, order, id, start);
  }

  /** A claim uses up the fresh stamp of each row it returns. */
  lemma ClaimStamps(c: Config, s: State, order: seq<Item>, id: int, start: int)
    requires Sane(c) && Inv(c, s) && Enabled(c, s, Claim(order)) && start <= s.now <= start + CLAIM_WINDOW
    ensures One(Unstamped(Next(c, s, Claim(order)), id, start)) + One(HasId(order, id)) <= One(Unstamped(s, id, start))
  {
    var t := Next(c, s, Claim(order));
    StampedKeeps(s.rows, s.now, Limit(c));
    if HasId(order, id) {
      var r := ReturnedWasClaimable(c, s, order, id);
      assert Fresh(s.rows[r], start);
      ReturnedAreStamped(c, s, order, id, start);
    } else if Unstamped(t, id, start) && id <= s.serial {
      var r :| 0 <= r < |t.rows| && t.rows[r].id == id && Fresh(t.rows[r], start);
      assert s.rows[r].id == id && Fresh(s.rows[r], start);
    }
  }

  lemma FilterIsDue(c: Config, s: State, id: int, start: int)
    requires Sane(c) && Inv(c, s) && Enabled(c, s, Filter)
    ensures Due(Next(c, s, Filter), id, start) <= Due(s, id, start)
  {
    var t := Next(c, s, Filter);
    assert BatchOk(c, s.taken, s.loop.batches[0]);
    KeptHasId(t.fails, s.loop.batches[0], id);
    assert t.rows == s.rows && t.serial == s.serial;
  }

  lemma KeptHasId(m: map<int, nat>, items: seq<Item>, id: int)
    requires DistinctIds(items)
    ensures HasId(Kept(m, items), id) <==> HasId(items, id) && Get(m, id) < POISON_FAIL_MAX
  {
    KeptArePart(m, items);
    var kept := Kept(m, items);
    if HasId(kept, id) {
      var i :| 0 <= i < |kept| && kept[i].id == id;
      assert kept[i] in kept && kept[i] in items;
    }
    if HasId(items, id) && Get(m, id) < POISON_FAIL_MAX {
      var i :| 0 <= i < |items| && items[i].id == id;
      assert items[i] in items && items[i] in kept;
    }
  }

  lemma SpawnIsDue(c: Config, s: State, id: int, start: int)
    requires Sane(c) && Inv(c, s) && Enabled(c, s, Spawn)
    ensures Due(Next(c, s, Spawn), id, start) <= Due(s, id, start)
  {
    var t := Next(c, s, Spawn);
    BumpCounts(s.sends, s.loop.kept, id);
    assert t.rows == s.rows && t.serial == s.serial;
  }

  /** Outside a claim no row becomes unstamped but one that is new. */
  lemma StampsStay(c: Config, s: State, a: Action, id: int, start: int)
    requires Sane(c) && Inv(c, s) && Enabled(c, s, a) && !a.Claim? && Unstamped(Next(c, s, a), id, start)
    ensures Unstamped(s, id, start)
  {
    var t := Next(c, s, a);
    if id <= s.serial {
      var q :| 0 <= q < |t.rows| && t.rows[q].id == id && Fresh(t.rows[q], start);
      var r := FreshBefore(c, s, a, q, start);
    }
  }

  lemma FreshBefore(c: Config, s: State, a: Action, q: nat, start: int) returns (r: nat)
    requires Sane(c) && Enabled(c, s, a) && !a.Claim? && q < |NextRows(c, s, a)|
    requires NextRows(c, s, a)[q].id <= s.serial && Fresh(NextRows(c, s, a)[q], start)
    ensures r < |s.rows| && s.rows[r].id == NextRows(c, s, a)[q].id && Fresh(s.rows[r], start)
  {
    r := if a.Delete? && q >= a.r then q + 1 else q;
  }

  lemma StepIsDue(c: Config, s: State, a: Action, id: int, start: int)
    requires Sane(c) && Inv(c, s) && Enabled(c, s, a) && start <= s.now <= start + CLAIM_WINDOW
    ensures Due(Next(c, s, a), id, start) <= Due(s, id, start)
  {
    match a
    case Claim(order) => ClaimIsDue(c, s, order, id, start);
    case Filter => FilterIsDue(c, s, id, start);
    case Spawn => SpawnIsDue(c, s, id, start);
    case _ =>
      if Unstamped(Next(c, s, a), id, start) {
        StampsStay(c, s, a, id, start);
      }
      LoopUnlessMoved(c, s, a, id);
  }

  lemma LoopUnlessMoved(c: Config, s: State, a: Action, id: int)
    requires Sane(c) && Enabled(c, s, a) && !a.Claim? && !a.Filter? && !a.Spawn?
    ensures InLoop(Next(c, s, a).loop, id) <= InLoop(s.loop, id) && Next(c, s, a).sends == s.sends
  {
  }

  lemma {:induction false} TimeGrows(c: Config, s: State, acts: seq<Action>)
    requires Sane(c) && Legal(c, s, acts)
    ensures s.now <= Run(c, s, acts).now
    decreases |acts|
  {
    if acts != [] {
      TimeGrows(c, Next(c, s, acts[0]), acts[1..]);
    }
  }

  lemma {:induction false} DueOverRun(c: Config, s: State, acts: seq<Action>, id: int, start: int)
    requires Sane(c) && Inv(c, s) && Legal(c, s, acts)
    requires start <= s.now && Run(c, s, acts).now <= start + CLAIM_WINDOW
    ensures Due(Run(c, s, acts), id, start) <= Due(s, id, start)
    decreases |acts|
  {
    if acts != [] {
      TimeGrows(c, s, acts);
      StepKeepsInv(c, s, acts[0]);
      StepIsDue(c, s, acts[0], id, start);
      DueOverRun(c, Next(c, s, acts[0]), acts[1..], id, start);
    }
  }

  /** Within one claim window a row is sent at most once, beyond what the loop already
      holds: for every interleaving, returning order, restart, failure and re-index. */
  lemma OncePerWindow(c: Config, s: State, acts: seq<Action>, id: int)
    requires Sane(c) && Inv(c, s) && Legal(c, s, acts) && Run(c, s, acts).now <= s.now + CLAIM_WINDOW
    ensures Get(Run(c, s, acts).sends, id) <= Get(s.sends, id) + InLoop(s.loop, id) + 1
    ensures InLoop(s.loop, id) == 0 ==> Get(Run(c, s, acts).sends, id) <= Get(s.sends, id) + 1
  {
    DueOverRun(c, s, acts, id, s.now);
  }

  // ---- Every row returned is sent or dropped as poison -----------------------------------------

  /** The step drops the row from its sub-batch for having failed three times. */
  ghost predicate Drops(c: Config, s: State, a: Action, id: int)
    requires Sane(c) && Enabled(c, s, a)
  {
    a.Filter? && HasId(s.loop.batches[0], id) && Get(NextFails(c, s, a), id) >= 3
  }

  ghost function DropsIn(c: Config, s: State, acts: seq<Action>, id: int): nat
    requires Sane(c) && Legal(c, s, acts)
    decreases |acts|
  {
    if acts == [] then 0 else One(Drops(c, s, acts[0], id)) + DropsIn(c, Next(c, s, acts[0]), acts[1..], id)
  }

  /** Claims that return the row. */
  function ReturnsIn(acts: seq<Action>, id: int): nat {
    if acts == [] then 0 else One(acts[0].Claim? && HasId(acts[0].order, id)) + ReturnsIn(acts[1..], id)
  }

  lemma StepConservesSends(c: Config, s: State, a: Action, id: int)
    requires Sane(c) && Inv(c, s) && Enabled(c, s, a)
    ensures var t := Next(c, s, a);
      Get(t.sends, id) + InLoop(t.loop, id) + One(Drops(c, s, a, id))
      == Get(s.sends, id) + InLoop(s.loop, id) + One(a.Claim? && HasId(a.order, id))
  {
    match a
    case Claim(order) => WaitingInChunks(order, c.batchSize, id);
    case Filter =>
      assert BatchOk(c, s.taken, s.loop.batches[0]);
      KeptHasId(NextFails(c, s, a), s.loop.batches[0], id);
    case Spawn => BumpCounts(s.sends, s.loop.kept, id);
    case _ =>
  }

  /** Over every run: the times a row was returned by a claim are the times it was sent, plus
      the times it was dropped as poison, plus what the loop still holds of it. */
  lemma {:induction false} SendsAreConserved(c: Config, s: State, acts: seq<Action>, id: int)
    requires Sane(c) && Inv(c, s) && Legal(c, s, acts)
    ensures var t := Run(c, s, acts);
      Get(t.sends, id) + InLoop(t.loop, id) + DropsIn(c, s, acts, id)
      == Get(s.sends, id) + InLoop(s.loop, id) + ReturnsIn(acts, id)
    decreases |acts|
  {
    if acts != [] {
      StepConservesSends(c, s, acts[0], id);
      StepKeepsInv(c, s, acts[0]);
      SendsAreConserved(c, Next(c, s, acts[0]), acts[1..], id);
    }
  }

  /** An abandoned row comes back: a claim returns, and stamps, every row without a vector whose
      stamp is missing or more than ten minutes old and that has fewer such rows before it than
      the limit. */
  lemma AbandonedRowsComeBack(c: Config, s: State, order: seq<Item>, r: nat)
    requires Sane(c) && Inv(c, s) && Enabled(c, s, Claim(order)) && r < |s.rows|
    requires s.rows[r].embedding == None
    requires s.rows[r].embedAt == None || s.now - s.rows[r].embedAt.value > 600
    requires OverdueBefore(s.rows, s.now, r) < Limit(c)
    ensures HasId(order, s.rows[r].id)
    ensures |Next(c, s, Claim(order)).rows| == |s.rows|
    ensures Next(c, s, Claim(order)).rows[r] == s.rows[r].(embedAt := Some(s.now))
  {
    ClaimedExactly(s.rows, s.now, Limit(c), r);
    StampedExactly(s.rows, s.now, Limit(c), r);
    var it := Item(s.rows[r].id, s.rows[r].text);
    assert it in order;
  }

  // ---- The loop ends ---------------------------------------------------------------------------

  /** Rows not stamped since `start`. */
  function FreshRows(rows: seq<Article>, start: int): nat {
    if rows == [] then 0 else One(Fresh(rows[0], start)) + FreshRows(rows[1..], start)
  }

  /** Each row a claim returns stops being fresh. */
  lemma {:induction false} ClaimUsesFreshRows(rows: seq<Article>, now: int, n: nat, start: int)
    requires start <= now <= start + CLAIM_WINDOW
    ensures FreshRows(Stamped(rows, now, n), start) + |Claimed(rows, now, n)| == FreshRows(rows, start)
  {
    if rows != [] && n > 0 {
      var k := if Claimable(rows[0], now) then n - 1 else n;
      ClaimUsesFreshRows(rows[1..], now, k, start);
      assert Stamped(rows, now, n)[1..] == Stamped(rows[1..], now, k);
    }
  }

  lemma {:induction false} FewerFresh(a: seq<Article>, b: seq<Article>, start: int)
    requires |a| == |b| && forall r | 0 <= r < |a| :: Fresh(b[r], start) ==> Fresh(a[r], start)
    ensures FreshRows(b, start) <= FreshRows(a, start)
  {
    if a != [] {
      FewerFresh(a[1..], b[1..], start);
    }
  }

  lemma {:induction false} FreshConcat(a: seq<Article>, b: seq<Article>, start: int)
    ensures FreshRows(a + b, start) == FreshRows(a, start) + FreshRows(b, start)
  {
    if a == [] {
      assert a + b == b;
    } else {
      assert (a + b)[1..] == a[1..] + b;
      FreshConcat(a[1..], b, start);
    }
  }

  /** Steps the loop has left if it claims nothing more. */
  function Left(loop: Loop): nat {
    match loop
    case Claiming => 1
    case Splitting(bs, _, _) => 2 * |bs| + 2
    case Holding(_, rest, _) => 2 * |rest| + 3
    case Draining => 0
  }

  predicate LoopStep(a: Action) {
    a.Claim? || a.ClaimFails? || a.Filter? || a.Spawn? || a.EndPass?
  }

  function LoopSteps(acts: seq<Action>): nat {
    if acts == [] then 0 else One(LoopStep(acts[0])) + LoopSteps(acts[1..])
  }

  function Inserts(acts: seq<Action>): nat {
    if acts == [] then 0 else One(acts[0].Insert?) + Inserts(acts[1..])
  }

  function Restarts(acts: seq<Action>): nat {
    if acts == [] then 0 else One(acts[0].Restart?) + Restarts(acts[1..])
  }

  lemma {:induction false} NoMorePiecesThanItems<T>(s: seq<T>, size: nat)
    requires size > 0
    ensures |Chunks(s, size)| <= |s|
  {
    if |s| > size {
      NoMorePiecesThanItems(s[size..], size);
    }
  }

  ghost function Fuel(s: State, start: int): nat {
    Left(s.loop) + 4 * FreshRows(s.rows, start)
  }

  lemma ClaimBurns(c: Config, s: State, order: seq<Item>, start: int)
    requires Sane(c) && Enabled(c, s, Claim(order)) && start <= s.now <= start + CLAIM_WINDOW
    ensures Fuel(Next(c, s, Claim(order)), start) + 1 <= Fuel(s, start)
  {
    ClaimUsesFreshRows(s.rows, s.now, Limit(c), start);
    NoMorePiecesThanItems(order, c.batchSize);
  }

  lemma DeleteBurns(rows: seq<Article>, r: nat, start: int)
    requires r < |rows|
    ensures FreshRows(rows[..r] + rows[r + 1..], start) <= FreshRows(rows, start)
  {
    assert rows == rows[..r] + ([rows[r]] + rows[r + 1..]);
    FreshConcat(rows[..r], [rows[r]] + rows[r + 1..], start);
    FreshConcat([rows[r]], rows[r + 1..], start);
    FreshConcat(rows[..r], rows[r + 1..], start);
  }

  /** The table gets no fresher except by an insert. */
  lemma TableBurns(c: Config, s: State, a: Action, start: int)
    requires Sane(c) && Enabled(c, s, a) && !a.Claim?
    ensures FreshRows(Next(c, s, a).rows, start) <= FreshRows(s.rows, start) + One(a.Insert?)
  {
    match a
    case Store(k) => FewerFresh(s.rows, Next(c, s, a).rows, start);
    case Rewrite(_, _) => FewerFresh(s.rows, Next(c, s, a).rows, start);
    case Delete(r) => DeleteBurns(s.rows, r, start);
    case Insert(id, text) => FreshConcat(s.rows, [Article(id, text, None, None)], start);
    case _ =>
  }

  lemma LoopBurns(c: Config, s: State, a: Action)
    requires Sane(c) && Enabled(c, s, a) && !a.Claim?
    ensures Left(Next(c, s, a).loop) + One(LoopStep(a)) <= Left(s.loop) + One(a.Restart?)
  {
  }

  /** Within one claim window the loop ends: all its steps together are bounded by the rows
      it can still claim, the rows inserted meanwhile and the times it is started again. */
  lemma {:induction false} LoopEndsInWindow(c: Config, s: State, acts: seq<Action>, start: int)
    requires Sane(c) && Legal(c, s, acts)
    requires start <= s.now && Run(c, s, acts).now <= start + CLAIM_WINDOW
    ensures LoopSteps(acts) + Fuel(Run(c, s, acts), start)
            <= Fuel(s, start) + 4 * Inserts(acts) + Restarts(acts)
    decreases |acts|
  {
    if acts != [] {
      TimeGrows(c, s, acts);
      LoopEndsInWindow(c, Next(c, s, acts[0]), acts[1..], start);
      if acts[0].Claim? {
        ClaimBurns(c, s, acts[0].order, start);
      } else {
        TableBurns(c, s, acts[0], start);
        LoopBurns(c, s, acts[0]);
      }
    }
  }

  /** Rows returned by the claims of a run. */
  function Returned(acts: seq<Action>): nat {
    if acts == [] then 0 else (if acts[0].Claim? then |acts[0].order| else 0) + Returned(acts[1..])
  }

  function FullClaims(acts: seq<Action>, limit: nat): nat {
    if acts == [] then 0 else One(acts[0].Claim? && |acts[0].order| >= limit) + FullClaims(acts[1..], limit)
  }

  /** Within one claim window no row is returned twice, so the rows returned, and with them
      the full claims, are bounded by the rows that were fresh or new. */
  lemma {:induction false} RowsAreReturnedOnce(c: Config, s: State, acts: seq<Action>, start: int)
    requires Sane(c) && Legal(c, s, acts)
    requires start <= s.now && Run(c, s, acts).now <= start + CLAIM_WINDOW
    ensures Returned(acts) + FreshRows(Run(c, s, acts).rows, start) <= FreshRows(s.rows, start) + Inserts(acts)
    decreases |acts|
  {
    if acts != [] {
      TimeGrows(c, s, acts);
      RowsAreReturnedOnce(c, Next(c, s, acts[0]), acts[1..], start);
      if acts[0].Claim? {
        ClaimUsesFreshRows(s.rows, s.now, Limit(c), start);
      } else {
        TableBurns(c, s, acts[0], start);
      }
    }
  }

  lemma {:induction false} FullClaimsReturn(acts: seq<Action>, limit: nat)
    ensures FullClaims(acts, limit) * limit <= Returned(acts)
  {
    if acts != [] {
      FullClaimsReturn(acts[1..], limit);
      assert (FullClaims(acts[1..], limit) + 1) * limit == FullClaims(acts[1..], limit) * limit + limit;
    }
  }

  lemma FullClaimsAreBounded(c: Config, s: State, acts: seq<Action>)
    requires Sane(c) && Legal(c, s, acts) && Run(c, s, acts).now <= s.now + CLAIM_WINDOW
    ensures FullClaims(acts, Limit(c)) * Limit(c) <= FreshRows(s.rows, s.now) + Inserts(acts)
  {
    RowsAreReturnedOnce(c, s, acts, s.now);
    FullClaimsReturn(acts, Limit(c));
  }

  // ---- The poison bound ------------------------------------------------------------------------

  predicate Embedded(rows: seq<Article>, id: int) {
    exists r | 0 <= r < |rows| :: rows[r].id == id && rows[r].embedding.Some?
  }

  predicate Absent(rows: seq<Article>, id: int) {
    forall r | 0 <= r < |rows| :: rows[r].id != id
  }

  /** At most one outstanding task per row: a claim never returns a row in custody. */
  predicate Punctual(s: State, a: Action, id: int) {
    a.Claim? && Custody(s, id) > 0 ==> !HasId(a.order, id)
  }

  /** The row's custody is shorter than the claim window, counted from its stamp. */
  predicate Timely(s: State, id: int) {
    Custody(s, id) > 0 ==>
      forall r | 0 <= r < |s.rows| && s.rows[r].id == id ::
        s.rows[r].embedAt.Some? && s.rows[r].embedAt.value >= s.now - CLAIM_WINDOW
  }

  /** While custody is that short, no claim returns the row a second time. */
  lemma TimelyIsPunctual(c: Config, s: State, a: Action, id: int)
    requires Sane(c) && Inv(c, s) && Enabled(c, s, a) && Timely(s, id)
    ensures Punctual(s, a, id)
  {
    if a.Claim? && Custody(s, id) > 0 && HasId(a.order, id) {
      var r := ReturnedWasClaimable(c, s, a.order, id);
      assert false;
    }
  }

  /** While the row is sent or about to be, sends are failures plus the attempt in flight,
      and such a row has failed at most twice. */
  predicate Counted(s: State, id: int) {
    var f, b := Get(s.fails, id), Busy(s.tasks, id);
    && f <= POISON_FAIL_MAX && Get(s.sends, id) <= POISON_FAIL_MAX
    && (Embedded(s.rows, id) || (Absent(s.rows, id) && Custody(s, id) == 0) || Get(s.sends, id) == f + b)
    && (b > 0 || (s.loop.Holding? && HasId(s.loop.kept, id)) ==> f < POISON_FAIL_MAX)
  }

  predicate Rationed(s: State, id: int) {
    && Custody(s, id) <= 1
    && (Embedded(s.rows, id) ==> Custody(s, id) == 0)
    && (id > s.serial ==> Get(s.fails, id) == 0 && Get(s.sends, id) == 0)
    && (!s.cleared ==> Counted(s, id))
  }

  lemma SameTable(a: seq<Article>, b: seq<Article>, id: int)
    requires |a| == |b| && forall r | 0 <= r < |a| :: a[r].id == b[r].id && a[r].embedding == b[r].embedding
    ensures Embedded(a, id) <==> Embedded(b, id)
    ensures Absent(a, id) <==> Absent(b, id)
  {
    if Embedded(a, id) {
      var r :| 0 <= r < |a| && a[r].id == id && a[r].embedding.Some?;
      assert b[r].id == id && b[r].embedding.Some?;
    }
  }

  lemma NotEmbedded(rows: seq<Article>, id: int, r: nat)
    requires Ordered(rows) && r < |rows| && rows[r].id == id && rows[r].embedding.None?
    ensures !Embedded(rows, id) && !Absent(rows, id)
  {
  }

  lemma ClaimIsRationed(c: Config, s: State, order: seq<Item>, id: int)
    requires Sane(c) && Inv(c, s) && Enabled(c, s, Claim(order))
    requires Rationed(s, id) && Punctual(s, Claim(order), id)
    ensures Rationed(Next(c, s, Claim(order)), id)
  {
    if order != [] {
      StampedKeeps(s.rows, s.now, Limit(c));
      SameTable(s.rows, Stamped(s.rows, s.now, Limit(c)), id);
      WaitingInChunks(order, c.batchSize, id);
      if HasId(order, id) {
        var r := ReturnedWasClaimable(c, s, order, id);
        NotEmbedded(s.rows, id, r);
      }
    }
  }

  lemma FilterIsRationed(c: Config, s: State, id: int)
    requires Sane(c) && Inv(c, s) && Enabled(c, s, Filter) && Rationed(s, id)
    ensures Rationed(Next(c, s, Filter), id)
  {
    var t := Next(c, s, Filter);
    assert BatchOk(c, s.taken, s.loop.batches[0]);
    KeptHasId(t.fails, s.loop.batches[0], id);
  }

  lemma SpawnIsRationed(c: Config, s: State, id: int)
    requires Sane(c) && Inv(c, s) && Enabled(c, s, Spawn) && Rationed(s, id)
    ensures Rationed(Next(c, s, Spawn), id)
  {
    var t := Next(c, s, Spawn);
    BumpCounts(s.sends, s.loop.kept, id);
    assert t.tasks[..|s.tasks|] == s.tasks;
    if HasId(s.loop.kept, id) {
      BatchIsOld(c, s, s.loop.kept, id);
    }
  }

  lemma FailIsRationed(c: Config, s: State, a: Action, k: nat, id: int)
    requires Sane(c) && Inv(c, s) && Enabled(c, s, a) && Rationed(s, id)
    requires a == StoreFails(k) || (a.Reply? && a.k == k && !Accepted(s.tasks[k].items, a.reply))
    ensures Rationed(Next(c, s, a), id)
  {
    assert TaskOk(c, s.taken, s.log, s.tasks[k]);
    BumpCounts(s.fails, s.tasks[k].items, id);
    BusyAfterUpdate(s.tasks, k, s.tasks[k].(phase := Finished), id);
    if HasId(s.tasks[k].items, id) {
      BatchIsOld(c, s, s.tasks[k].items, id);
    }
  }

  lemma ReplyIsRationed(c: Config, s: State, k: nat, reply: Result<seq<EmbedData>, EmbedError>, id: int)
    requires Sane(c) && Inv(c, s) && Enabled(c, s, Reply(k, reply)) && Rationed(s, id)
    ensures Rationed(Next(c, s, Reply(k, reply)), id)
  {
    if Accepted(s.tasks[k].items, reply) {
      BusyAfterUpdate(s.tasks, k, Next(c, s, Reply(k, reply)).tasks[k], id);
    } else {
      FailIsRationed(c, s, Reply(k, reply), k, id);
    }
  }

  /** The write embeds exactly the rows of its task that still exist. */
  lemma EmbeddedAfterWrite(rows: seq<Article>, items: seq<Item>, vectors: seq<Vector>, now: int, id: int)
    requires items != [] && DistinctIds(items) && |vectors| == |items|
    ensures var out := BulkWrite(rows, BulkUpdateSql(Ids(items)).value, vectors, now);
      && (Embedded(out, id) <==> Embedded(rows, id) || (HasId(items, id) && !Absent(rows, id)))
      && (Absent(out, id) <==> Absent(rows, id))
  {
    var out := BulkWrite(rows, BulkUpdateSql(Ids(items)).value, vectors, now);
    BulkWriteIsPositional(rows, items, vectors, now);
    assert forall r | 0 <= r < |rows| :: out[r].id == rows[r].id;
    if HasId(items, id) {
      var i: nat :| i < |items| && items[i].id == id;
      if !Absent(rows, id) {
        var r :| 0 <= r < |rows| && rows[r].id == id;
        assert out[r].embedding.Some?;
      }
    } else {
      assert forall r | 0 <= r < |rows| && rows[r].id == id :: out[r] == rows[r];
      if Embedded(rows, id) {
        var r :| 0 <= r < |rows| && rows[r].id == id && rows[r].embedding.Some?;
        assert out[r] == rows[r];
      }
    }
  }

  lemma ForgetKeepsOthers(m: map<int, nat>, items: seq<Item>, id: int)
    ensures Get(Forget(m, items), id) == if HasId(items, id) then 0 else Get(m, id)
  {
  }

  lemma StoreIsRationed(c: Config, s: State, k: nat, id: int)
    requires Sane(c) && Inv(c, s) && Enabled(c, s, Store(k)) && Rationed(s, id)
    ensures Rationed(Next(c, s, Store(k)), id)
  {
    var task := s.tasks[k];
    assert TaskOk(c, s.taken, s.log, task);
    EmbeddedAfterWrite(s.rows, task.items, task.phase.vectors, s.now, id);
    BusyAfterUpdate(s.tasks, k, task.(phase := Finished), id);
    ForgetKeepsOthers(s.fails, task.items, id);
  }

  lemma DeleteIsRationed(c: Config, s: State, r: nat, id: int)
    requires Sane(c) && Inv(c, s) && r < |s.rows| && Rationed(s, id)
    ensures Rationed(Next(c, s, Delete(r)), id)
  {
    var t := Next(c, s, Delete(r));
    assert forall q | 0 <= q < |t.rows| :: t.rows[q] == if q < r then s.rows[q] else s.rows[q + 1];
    if s.rows[r].id == id {
      assert Absent(t.rows, id);
    } else {
      forall q | 0 <= q < |s.rows| && s.rows[q].id == id ensures s.rows[q] in t.rows {
        assert s.rows[q] == t.rows[if q < r then q else q - 1];
      }
    }
  }

  lemma InsertIsRationed(c: Config, s: State, new_: int, text: string, id: int)
    requires Sane(c) && Inv(c, s) && new_ > s.serial && Rationed(s, id)
    ensures Rationed(Next(c, s, Insert(new_, text)), id)
  {
    var t := Next(c, s, Insert(new_, text));
    assert forall q | 0 <= q < |s.rows| :: t.rows[q] == s.rows[q];
    assert Embedded(t.rows, id) <==> Embedded(s.rows, id) by {
      if Embedded(s.rows, id) {
        var r :| 0 <= r < |s.rows| && s.rows[r].id == id && s.rows[r].embedding.Some?;
        assert t.rows[r] == s.rows[r];
      }
    }
    if id > s.serial {
      NothingInCustody(c, s, id);
    }
  }

  /** Ids not handed out yet are nowhere in the pipeline. */
  lemma NothingInCustody(c: Config, s: State, id: int)
    requires Inv(c, s) && id > s.serial
    ensures Custody(s, id) == 0
  {
    match s.loop {
      case Splitting(bs, _, _) => NothingWaiting(c, s, bs, id);
      case Holding(kept, rest, _) =>
        NothingWaiting(c, s, rest, id);
        if HasId(kept, id) {
          BatchIsOld(c, s, kept, id);
        }
      case _ =>
    }
    NothingBusy(c, s, |s.tasks|, id);
  }

  lemma {:induction false} NothingWaiting(c: Config, s: State, bs: seq<seq<Item>>, id: int)
    requires Inv(c, s) && id > s.serial && forall i | 0 <= i < |bs| :: BatchOk(c, s.taken, bs[i])
    ensures Waiting(bs, id) == 0
  {
    if bs != [] {
      if HasId(bs[0], id) {
        BatchIsOld(c, s, bs[0], id);
      }
      forall i | 0 <= i < |bs[1..]| ensures BatchOk(c, s.taken, bs[1..][i]) {
        assert bs[1..][i] == bs[i + 1];
      }
      NothingWaiting(c, s, bs[1..], id);
    }
  }

  lemma {:induction false} NothingBusy(c: Config, s: State, n: nat, id: int)
    requires Inv(c, s) && id > s.serial && n <= |s.tasks|
    ensures Busy(s.tasks[..n], id) == 0 && s.tasks[..|s.tasks|] == s.tasks
  {
    if n > 0 {
      NothingBusy(c, s, n - 1, id);
      assert s.tasks[..n][..n - 1] == s.tasks[..n - 1];
      assert TaskOk(c, s.taken, s.log, s.tasks[n - 1]);
      if HasId(s.tasks[n - 1].items, id) {
        BatchIsOld(c, s, s.tasks[n - 1].items, id);
      }
    }
  }

  lemma RewriteIsRationed(c: Config, s: State, of: int, text: string, id: int)
    requires Sane(c) && Rationed(s, id)
    ensures Rationed(Next(c, s, Rewrite(of, text)), id)
  {
    SameTable(s.rows, Rewritten(s.rows, of, text), id);
  }

  lemma StepIsRationed(c: Config, s: State, a: Action, id: int)
    requires Sane(c) && Inv(c, s) && Enabled(c, s, a) && Rationed(s, id) && Punctual(s, a, id) && c.mine(id)
    ensures Rationed(Next(c, s, a), id)
  {
    match a
    case Claim(order) => ClaimIsRationed(c, s, order, id);
    case Filter => FilterIsRationed(c, s, id);
    case Spawn => SpawnIsRationed(c, s, id);
    case Reply(k, reply) => ReplyIsRationed(c, s, k, reply, id);
    case Store(k) => StoreIsRationed(c, s, k, id);
    case StoreFails(k) => FailIsRationed(c, s, a, k, id);
    case Rewrite(of, text) => RewriteIsRationed(c, s, of, text, id);
    case Delete(r) => DeleteIsRationed(c, s, r, id);
    case Insert(new_, text) => InsertIsRationed(c, s, new_, text, id);
    case _ => OtherwiseRationed(c, s, a, id);
  }

  lemma OtherwiseRationed(c: Config, s: State, a: Action, id: int)
    requires Sane(c) && Enabled(c, s, a) && Rationed(s, id) && c.mine(id)
    requires a.Tick? || a.ClaimFails? || a.EndPass? || a.Restart? || a.OtherCounts? || a.OtherClears?
    ensures Rationed(Next(c, s, a), id)
  {
  }

  /** A process starts with its table, empty counters and nothing in custody. */
  ghost predicate Starting(s: State) {
    && s == State(s.rows, s.serial, map[], Claiming, [], s.now, false, map[], {}, map[], [])
    && Ordered(s.rows) && forall r | 0 <= r < |s.rows| :: s.rows[r].id <= s.serial
  }

  lemma StartIsGood(c: Config, s: State, id: int)
    requires Starting(s)
    ensures Inv(c, s) && Rationed(s, id)
  {
  }

  /** No claim of the run returns the row while it is in custody. */
  ghost predicate AlwaysPunctual(c: Config, s: State, acts: seq<Action>, id: int)
    requires Sane(c) && Legal(c, s, acts)
    decreases |acts|
  {
    acts == [] || (Punctual(s, acts[0], id) && AlwaysPunctual(c, Next(c, s, acts[0]), acts[1..], id))
  }

  /** In every run of one process with at most one outstanding task per row, and until the
      fail-open clear of the poison map, the row is sent at most three times, however often
      pipelines start and whatever other pipelines count. */
  lemma {:induction false} PoisonRowsAreSentThreeTimes(c: Config, s: State, acts: seq<Action>, id: int)
    requires Sane(c) && Inv(c, s) && Rationed(s, id) && c.mine(id)
    requires Legal(c, s, acts) && AlwaysPunctual(c, s, acts, id)
    ensures var t := Run(c, s, acts);
      Rationed(t, id) && (!t.cleared ==> Get(t.sends, id) <= POISON_FAIL_MAX)
    decreases |acts|
  {
    if acts != [] {
      StepKeepsInv(c, s, acts[0]);
      StepIsRationed(c, s, acts[0], id);
      PoisonRowsAreSentThreeTimes(c, Next(c, s, acts[0]), acts[1..], id);
    }
  }

  ghost predicate AlwaysTimely(c: Config, s: State, acts: seq<Action>, id: int)
    requires Sane(c) && Legal(c, s, acts)
    decreases |acts|
  {
    Timely(s, id) && (acts == [] || AlwaysTimely(c, Next(c, s, acts[0]), acts[1..], id))
  }

  /** Custody no longer than the claim window is enough for that. */
  lemma {:induction false} TimelyRunsArePunctual(c: Config, s: State, acts: seq<Action>, id: int)
    requires Sane(c) && Inv(c, s) && Legal(c, s, acts) && AlwaysTimely(c, s, acts, id)
    ensures AlwaysPunctual(c, s, acts, id)
    decreases |acts|
  {
    if acts != [] {
      TimelyIsPunctual(c, s, acts[0], id);
      StepKeepsInv(c, s, acts[0]);
      TimelyRunsArePunctual(c, Next(c, s, acts[0]), acts[1..], id);
    }
  }

  // ---- The loop ends, however long it takes ------------------------------------------------------

  /** Sends the rows of `pool` have left. */
  function Budget(pool: seq<int>, sends: map<int, nat>): nat {
    if pool == [] then 0
    else (if Get(sends, pool[0]) < POISON_FAIL_MAX then POISON_FAIL_MAX - Get(sends, pool[0]) else 0)
         + Budget(pool[1..], sends)
  }

  lemma {:induction false} BudgetShrinks(pool: seq<int>, a: map<int, nat>, b: map<int, nat>)
    requires forall id <- pool :: Get(a, id) <= Get(b, id)
    ensures Budget(pool, b) <= Budget(pool, a)
  {
    if pool != [] {
      assert pool[0] in pool && forall id <- pool[1..] :: id in pool;
      BudgetShrinks(pool[1..], a, b);
    }
  }

  /** A row sent once more, and still within the limit, uses up a send. */
  lemma {:induction false} BudgetDrops(pool: seq<int>, a: map<int, nat>, b: map<int, nat>, id: int)
    requires (forall i <- pool :: Get(a, i) <= Get(b, i)) && id in pool && Get(a, id) < Get(b, id) <= POISON_FAIL_MAX
    ensures Budget(pool, b) + 1 <= Budget(pool, a)
  {
    assert pool[0] in pool && forall i <- pool[1..] :: i in pool;
    if pool[0] == id {
      BudgetShrinks(pool[1..], a, b);
    } else {
      BudgetDrops(pool[1..], a, b, id);
    }
  }

  lemma {:induction false} BudgetAppends(pool: seq<int>, sends: map<int, nat>, id: int)
    ensures Budget(pool + [id], sends) <= Budget(pool, sends) + POISON_FAIL_MAX
  {
    if pool == [] {
      assert (pool + [id])[1..] == [];
    } else {
      assert (pool + [id])[1..] == pool[1..] + [id];
      BudgetAppends(pool[1..], sends, id);
    }
  }

  lemma {:induction false} BudgetAtMost(pool: seq<int>, sends: map<int, nat>)
    ensures Budget(pool, sends) <= POISON_FAIL_MAX * |pool|
  {
    if pool != [] {
      BudgetAtMost(pool[1..], sends);
    }
  }

  /** `pool` holds every id of the table and of the items claimed so far. */
  ghost predicate Known(s: State, pool: seq<int>) {
    (forall r | 0 <= r < |s.rows| :: s.rows[r].id in pool) && forall it <- s.taken :: it.id in pool
  }

  function Grown(pool: seq<int>, a: Action): seq<int> {
    if a.Insert? then pool + [a.id] else pool
  }

  lemma KnownRow(c: Config, s: State, a: Action, pool: seq<int>, q: nat)
    requires Sane(c) && Inv(c, s) && Enabled(c, s, a) && Known(s, pool) && q < |Next(c, s, a).rows|
    requires !a.Insert? ==> Next(c, s, a).rows[q].id <= s.serial
    ensures Next(c, s, a).rows[q].id in Grown(pool, a)
  {
    if !a.Insert? {
      var r := RowBefore(c, s, a, q);
    }
  }

  lemma KnownClaim(c: Config, s: State, order: seq<Item>, pool: seq<int>)
    requires Sane(c) && Inv(c, s) && Enabled(c, s, Claim(order)) && Known(s, pool)
    ensures forall it <- order :: it.id in pool
  {
    ClaimedAreRows(s.rows, s.now, Limit(c));
    forall it <- order ensures it.id in pool {
      assert FromClaimable(s.rows, s.now, it);
    }
  }

  lemma StepKeepsKnown(c: Config, s: State, a: Action, pool: seq<int>)
    requires Sane(c) && Inv(c, s) && Enabled(c, s, a) && Known(s, pool)
    ensures Known(Next(c, s, a), Grown(pool, a))
  {
    StepKeepsInv(c, s, a);
    forall q | 0 <= q < |Next(c, s, a).rows| ensures Next(c, s, a).rows[q].id in Grown(pool, a) {
      KnownRow(c, s, a, pool, q);
    }
    if a.Claim? {
      KnownClaim(c, s, a.order, pool);
    }
  }

  /** The most steps of one pass, and one more. */
  function Pass(c: Config): nat
    requires Sane(c)
  {
    2 * Limit(c) + 3
  }

  /** Steps the loop has left if it sends nothing more: a pass that has sent a row goes on
      to another one. */
  function Reach(c: Config, loop: Loop): nat
    requires Sane(c)
  {
    match loop
    case Claiming => Pass(c)
    case Splitting(bs, spawned, _) => 2 * |bs| + 2 + (if spawned then Pass(c) else 0)
    case Holding(_, rest, _) => 2 * |rest| + 3
    case Draining => 0
  }

  lemma ReachFalls(c: Config, s: State, a: Action)
    requires Sane(c) && Inv(c, s) && Enabled(c, s, a)
    ensures Reach(c, Next(c, s, a).loop) + One(LoopStep(a))
            <= Reach(c, s.loop) + (if a.Spawn? || a.Restart? then Pass(c) else 0)
  {
    if a.Claim? {
      ClaimedAtMost(s.rows, s.now, Limit(c));
      NoMorePiecesThanItems(a.order, c.batchSize);
    }
  }

  lemma SendsGrow(c: Config, s: State, a: Action, id: int)
    requires Sane(c) && Inv(c, s) && Enabled(c, s, a)
    ensures Get(s.sends, id) <= Get(Next(c, s, a).sends, id)
  {
    if a.Spawn? {
      BumpCounts(s.sends, s.loop.kept, id);
    }
  }

  /** Spawning sends a row that had a send left. */
  lemma SpawnUsesBudget(c: Config, s: State, pool: seq<int>)
    requires Sane(c) && Inv(c, s) && Enabled(c, s, Spawn) && Known(s, pool)
    requires forall id <- pool :: Get(Next(c, s, Spawn).sends, id) <= POISON_FAIL_MAX
    ensures Budget(pool, Next(c, s, Spawn).sends) + 1 <= Budget(pool, s.sends)
  {
    var kept := s.loop.kept;
    assert BatchOk(c, s.taken, kept) && kept[0] in s.taken;
    forall id <- pool ensures Get(s.sends, id) <= Get(Next(c, s, Spawn).sends, id) {
      SendsGrow(c, s, Spawn, id);
    }
    assert HasId(kept, kept[0].id);
    BumpCounts(s.sends, kept, kept[0].id);
    BudgetDrops(pool, s.sends, Next(c, s, Spawn).sends, kept[0].id);
  }

  lemma BudgetFalls(c: Config, s: State, a: Action, pool: seq<int>)
    requires Sane(c) && Inv(c, s) && Enabled(c, s, a) && Known(s, pool)
    requires forall id <- pool :: Get(Next(c, s, a).sends, id) <= POISON_FAIL_MAX
    ensures Budget(Grown(pool, a), Next(c, s, a).sends) + One(a.Spawn?)
            <= Budget(pool, s.sends) + POISON_FAIL_MAX * One(a.Insert?)
  {
    if a.Spawn? {
      SpawnUsesBudget(c, s, pool);
    } else if a.Insert? {
      BudgetAppends(pool, s.sends, a.id);
    }
  }

  /** At most one outstanding task per row, for every row of this ZIM. */
  ghost predicate AllPunctual(c: Config, s: State, acts: seq<Action>)
    requires Sane(c) && Legal(c, s, acts)
  {
    forall id | c.mine(id) :: AlwaysPunctual(c, s, acts, id)
  }

  ghost predicate AllRationed(c: Config, s: State) {
    forall id | c.mine(id) :: Rationed(s, id)
  }

  ghost predicate AllMine(c: Config, pool: seq<int>, acts: seq<Action>) {
    (forall id <- pool :: c.mine(id)) && forall a <- acts | a.Insert? :: c.mine(a.id)
  }

  lemma {:induction false} ClearsLast(c: Config, s: State, acts: seq<Action>)
    requires Sane(c) && Legal(c, s, acts) && s.cleared
    ensures Run(c, s, acts).cleared
    decreases |acts|
  {
    if acts != [] {
      ClearsLast(c, Next(c, s, acts[0]), acts[1..]);
    }
  }

  /** No row of the pool is sent more often than the limit allows. */
  ghost predicate WithinLimit(c: Config, s: State, acts: seq<Action>, pool: seq<int>)
    requires Sane(c) && Legal(c, s, acts)
    decreases |acts|
  {
    && (forall id <- pool :: Get(s.sends, id) <= POISON_FAIL_MAX)
    && (acts != [] ==> WithinLimit(c, Next(c, s, acts[0]), acts[1..], Grown(pool, acts[0])))
  }

  lemma AllRationedStep(c: Config, s: State, acts: seq<Action>)
    requires Sane(c) && Inv(c, s) && Legal(c, s, acts) && acts != []
    requires AllRationed(c, s) && AllPunctual(c, s, acts)
    ensures AllRationed(c, Next(c, s, acts[0])) && AllPunctual(c, Next(c, s, acts[0]), acts[1..])
  {
    var t := Next(c, s, acts[0]);
    forall id | c.mine(id) ensures Rationed(t, id) && AlwaysPunctual(c, t, acts[1..], id) {
      assert Rationed(s, id) && AlwaysPunctual(c, s, acts, id);
      StepIsRationed(c, s, acts[0], id);
    }
  }

  /** The poison theorem for all rows at once, along the whole run. */
  lemma {:induction false} RationedIsWithinLimit(c: Config, s: State, acts: seq<Action>, pool: seq<int>)
    requires Sane(c) && Inv(c, s) && Legal(c, s, acts) && !Run(c, s, acts).cleared
    requires AllRationed(c, s) && AllPunctual(c, s, acts) && AllMine(c, pool, acts)
    ensures WithinLimit(c, s, acts, pool)
    decreases |acts|
  {
    if s.cleared {
      ClearsLast(c, s, acts);
    }
    if acts != [] {
      AllRationedStep(c, s, acts);
      StepKeepsInv(c, s, acts[0]);
      assert acts[0] in acts && forall a <- acts[1..] :: a in acts;
      RationedIsWithinLimit(c, Next(c, s, acts[0]), acts[1..], Grown(pool, acts[0]));
    }
  }

  /** The steps of `n` passes. */
  function Passes(c: Config, n: nat): nat
    requires Sane(c)
  {
    if n == 0 then 0 else Pass(c) + Passes(c, n - 1)
  }

  lemma {:induction false} PassesAdd(c: Config, n: nat, m: nat)
    requires Sane(c)
    ensures Passes(c, n + m) == Passes(c, n) + Passes(c, m)
    decreases n
  {
    if n > 0 {
      PassesAdd(c, n - 1, m);
    }
  }

  lemma PassesGrow(c: Config, n: nat, m: nat)
    requires Sane(c) && n <= m
    ensures Passes(c, n) <= Passes(c, m)
  {
    PassesAdd(c, n, m - n);
  }

  /** Steps the loop has left at most: its reach, and a pass for every send left. */
  function Fund(c: Config, s: State, pool: seq<int>): nat
    requires Sane(c)
  {
    Reach(c, s.loop) + Passes(c, Budget(pool, s.sends))
  }

  /** Passes that inserts and restarts add: three for a row, one for a start. */
  function Extra(acts: seq<Action>): nat {
    if acts == [] then 0 else ExtraOf(acts[0]) + Extra(acts[1..])
  }

  function ExtraOf(a: Action): nat {
    POISON_FAIL_MAX * One(a.Insert?) + One(a.Restart?)
  }

  lemma {:induction false} ExtraCounts(acts: seq<Action>)
    ensures Extra(acts) == POISON_FAIL_MAX * Inserts(acts) + Restarts(acts)
  {
    if acts != [] {
      ExtraCounts(acts[1..]);
    }
  }

  lemma StepUsesUp(c: Config, s: State, a: Action, pool: seq<int>)
    requires Sane(c) && Inv(c, s) && Enabled(c, s, a) && Known(s, pool)
    requires forall id <- pool :: Get(Next(c, s, a).sends, id) <= POISON_FAIL_MAX
    ensures Fund(c, Next(c, s, a), Grown(pool, a)) + One(LoopStep(a)) <= Fund(c, s, pool) + Passes(c, ExtraOf(a))
  {
    ReachFalls(c, s, a);
    BudgetFalls(c, s, a, pool);
    FundFalls(c, Budget(Grown(pool, a), Next(c, s, a).sends), Budget(pool, s.sends), a);
  }

  lemma FundFalls(c: Config, after: nat, before: nat, a: Action)
    requires Sane(c) && after + One(a.Spawn?) <= before + POISON_FAIL_MAX * One(a.Insert?)
    ensures Passes(c, after) + (if a.Spawn? || a.Restart? then Pass(c) else 0)
            <= Passes(c, before) + Passes(c, ExtraOf(a))
  {
    if a.Spawn? {
      PassesGrow(c, after + 1, before);
      assert Passes(c, after + 1) == Pass(c) + Passes(c, after);
    } else if a.Insert? {
      PassesGrow(c, after, before + POISON_FAIL_MAX);
      PassesAdd(c, before, POISON_FAIL_MAX);
    } else {
      PassesGrow(c, after, before);
      assert a.Restart? ==> Passes(c, 1) == Pass(c) + Passes(c, 0);
    }
  }

  /** A run in which no row is sent too often ends: a pass goes on only after sending a row,
      and the rows have three sends each. */
  lemma {:induction false} LimitedRunsEnd(c: Config, s: State, acts: seq<Action>, pool: seq<int>)
    requires Sane(c) && Inv(c, s) && Known(s, pool) && Legal(c, s, acts) && WithinLimit(c, s, acts, pool)
    ensures LoopSteps(acts) <= Fund(c, s, pool) + Passes(c, Extra(acts))
    decreases |acts|
  {
    if acts != [] {
      var t, known := Next(c, s, acts[0]), Grown(pool, acts[0]);
      LimitedTail(c, s, acts, pool);
      LimitedStep(c, s, acts[0], pool, known);
      LimitedRunsEnd(c, t, acts[1..], known);
      PassesSplit(c, Extra(acts), ExtraOf(acts[0]), Extra(acts[1..]));
      FundsAdd(acts, Fund(c, s, pool), Fund(c, t, known), Passes(c, ExtraOf(acts[0])), Passes(c, Extra(acts[1..])));
    }
  }

  lemma FundsAdd(acts: seq<Action>, before: nat, after: nat, p: nat, q: nat)
    requires acts != [] && after + One(LoopStep(acts[0])) <= before + p && LoopSteps(acts[1..]) <= after + q
    ensures LoopSteps(acts) <= before + p + q
  {
  }

  lemma PassesSplit(c: Config, k: nat, n: nat, m: nat)
    requires Sane(c) && k == n + m
    ensures Passes(c, k) == Passes(c, n) + Passes(c, m)
  {
    PassesAdd(c, n, m);
  }

  lemma LimitedTail(c: Config, s: State, acts: seq<Action>, pool: seq<int>)
    requires Sane(c) && Legal(c, s, acts) && acts != [] && WithinLimit(c, s, acts, pool)
    ensures var t, known := Next(c, s, acts[0]), Grown(pool, acts[0]);
      WithinLimit(c, t, acts[1..], known) && forall id <- known :: Get(t.sends, id) <= POISON_FAIL_MAX
  {
  }

  lemma LimitedStep(c: Config, s: State, a: Action, pool: seq<int>, known: seq<int>)
    requires Sane(c) && Inv(c, s) && Known(s, pool) && Enabled(c, s, a) && known == Grown(pool, a)
    requires forall id <- known :: Get(Next(c, s, a).sends, id) <= POISON_FAIL_MAX
    ensures Inv(c, Next(c, s, a)) && Known(Next(c, s, a), known)
    ensures Fund(c, Next(c, s, a), known) + One(LoopStep(a)) <= Fund(c, s, pool) + Passes(c, ExtraOf(a))
  {
    StepKeepsInv(c, s, a);
    StepKeepsKnown(c, s, a, pool);
    assert forall id <- pool :: id in known;
    StepUsesUp(c, s, a, pool);
  }

  /** Over any span of time, with at most one outstanding task per row and no clear of the
      poison map, the loop ends. */
  lemma LoopEnds(c: Config, s: State, acts: seq<Action>, pool: seq<int>)
    requires Sane(c) && Inv(c, s) && Known(s, pool) && Legal(c, s, acts) && !Run(c, s, acts).cleared
    requires AllRationed(c, s) && AllPunctual(c, s, acts) && AllMine(c, pool, acts)
    ensures LoopSteps(acts) <= Fund(c, s, pool) + Passes(c, Extra(acts))
  {
    RationedIsWithinLimit(c, s, acts, pool);
    LimitedRunsEnd(c, s, acts, pool);
  }

  function IdsOf(rows: seq<Article>): (ids: seq<int>)
    ensures |ids| == |rows| && forall r | 0 <= r < |rows| :: ids[r] == rows[r].id
  {
    seq(|rows|, r requires 0 <= r < |rows| => rows[r].id)
  }

  lemma AllGoodAtStart(c: Config, s: State, pool: seq<int>)
    requires Starting(s) && pool == IdsOf(s.rows)
    ensures Inv(c, s) && Known(s, pool) && AllRationed(c, s) && s.loop.Claiming?
  {
    forall id ensures Inv(c, s) && Rationed(s, id) {
      StartIsGood(c, s, id);
    }
  }

  /** In numbers: from a state about to claim, such as the start of a process, the steps of
      all its runs together are at most one pass for each start and three for each row it
      ever had. */
  lemma AllRunsEnd(c: Config, s: State, acts: seq<Action>, pool: seq<int>)
    requires Sane(c) && Inv(c, s) && Known(s, pool) && Legal(c, s, acts) && !Run(c, s, acts).cleared
    requires AllRationed(c, s) && AllPunctual(c, s, acts) && AllMine(c, pool, acts) && s.loop.Claiming?
    ensures LoopSteps(acts) <= Passes(c, 1 + POISON_FAIL_MAX * (|pool| + Inserts(acts)) + Restarts(acts))
  {
    LoopEnds(c, s, acts, pool);
    StartingFund(c, s, acts, pool);
  }

  lemma StartingFund(c: Config, s: State, acts: seq<Action>, pool: seq<int>)
    requires Sane(c) && s.loop.Claiming?
    ensures Fund(c, s, pool) + Passes(c, Extra(acts))
            <= Passes(c, 1 + POISON_FAIL_MAX * (|pool| + Inserts(acts)) + Restarts(acts))
  {
    var n := POISON_FAIL_MAX * |pool|;
    BudgetAtMost(pool, s.sends);
    ExtraCounts(acts);
    PassesGrow(c, Budget(pool, s.sends), n);
    PassesAdd(c, 1 + n, Extra(acts));
    assert Passes(c, 1 + n) == Pass(c) + Passes(c, n);
  }
}
