/** The download lifecycle (`src/db/downloads_lifecycle.rs`, `src/db/downloads.rs`):
    guarded UPDATEs as atomic statements on the `downloads` table, issued by the
    poller, the workers and the HTTP handlers in any order. */
module Downloads {
  import opened Numbers
  import opened Wrappers

  datatype Status = Queued | Downloading | Complete | Seeding | Error | Cancelled

  /** The documented state machine. */
  predicate CanTransition(a: Status, b: Status) {
    match a
    case Queued => b.Downloading? || b.Error? || b.Cancelled?
    case Downloading => b.Complete? || b.Seeding? || b.Error? || b.Cancelled? || b.Queued?
    case Error => b.Queued?
    case Seeding => b.Complete?
    case _ => false
  }

  datatype SeedStats = SeedStats(ratio: Option<real>, upSpeedBps: int, numSeeds: int)

  /** One row of the poller's statistics batch. */
  datatype Stats = Stats(progress: real, seeds: SeedStats)

  /** A row; `direct` says that the URL path ends in `.zim`. */
  datatype Row = Row(
    name: string, url: string, direct: bool, hash: Option<string>, status: Status,
    progress: real, filePath: Option<string>, error: Option<string>,
    sha256: Option<string>, seeds: Option<SeedStats>)

  type Table = map<int, Row>

  predicate Active(r: Row) {
    r.status.Queued? || r.status.Downloading?
  }

  /** The two partial unique indexes: one active row per URL and per name. */
  predicate UniqueActive(t: Table) {
    forall i, j | i in t && j in t && i != j && Active(t[i]) && Active(t[j]) ::
      t[i].url != t[j].url && t[i].name != t[j].name
  }

  /** The statements that write rows: inserts (by hand, or queued by the catalog poller with
      the digest it claims), adoptions, transitions, the hash and digest columns, and the
      statistics. */
  datatype Statement =
    | Insert(id: int, name: string, url: string, direct: bool, claim: Option<string>)
    | AdoptTorrent(id: int, name: string, qbHash: string, status: Status, progress: real)
    | ClaimDirect(id: int, part: string)
    | MarkDownloading(id: int)
    | MarkError(id: int, msg: string)
    | MarkFatalError(id: int, msg: string)
    | RequeueStaleErrors(ids: set<int>)
    | FinalizeDirect(id: int, dst: string, digest: Option<string>)
    | MarkComplete(id: int, dst: string, newStatus: Status, stats: Option<SeedStats>)
    | SettleSeeding(id: int, note: Option<string>)
    | RetryInterruptedDirects
    | CancelUpdate(id: int)
    | BindHash(id: int, newHash: string)
    | ClearHash(id: int)
    | DrainCancelledHashes
    | RecordObservedDigest(id: int, observed: string)
    | RefreshSeedingStats(id: int, seen: SeedStats)
    | RefreshProgress(id: int, done: real)
    | ApplyStats(batch: map<int, Stats>)

  /** The WHERE clause. */
  predicate Hits(s: Statement, id: int, r: Row) {
    match s
    case Insert(_, _, _, _, _) => false
    case AdoptTorrent(_, _, _, _, _) => false
    case ClaimDirect(i, _) => i == id && r.status.Queued?
    case MarkDownloading(i) => i == id && r.status.Queued?
    case MarkError(i, _) => i == id && r.status !in {Cancelled, Complete, Seeding, Error}
    case MarkFatalError(i, _) => i == id && r.status in {Queued, Downloading}
    case RequeueStaleErrors(ids) => id in ids && r.status.Error?
    case FinalizeDirect(i, _, _) => i == id && r.status.Downloading?
    case MarkComplete(i, _, _, _) => i == id && r.status in {Downloading, Complete}
    case SettleSeeding(i, _) => i == id && r.status.Seeding?
    case RetryInterruptedDirects => r.status.Downloading? && r.direct
    case CancelUpdate(i) => i == id && r.status in {Queued, Downloading}
    case BindHash(i, _) => i == id
    case ClearHash(i) => i == id
    case DrainCancelledHashes => r.status.Cancelled? && r.hash.Some?
    case RecordObservedDigest(i, _) => i == id && r.status in {Complete, Seeding}
    case RefreshSeedingStats(i, _) => i == id && r.status.Seeding?
    case RefreshProgress(i, _) => i == id
    case ApplyStats(batch) => id in batch
  }

  /** The SET clause. */
  function Written(s: Statement, id: int, r: Row): Row
    requires Hits(s, id, r)
  {
    match s
    case Insert(_, _, _, _, _) => r
    case AdoptTorrent(_, _, _, _, _) => r
    case ClaimDirect(_, part) => r.(status := Downloading, filePath := Some(part))
    case MarkDownloading(_) => r.(status := Downloading)
    case MarkError(_, msg) => r.(status := Error, error := Some(msg))
    case MarkFatalError(_, msg) => r.(status := Error, error := Some(msg))
    case RequeueStaleErrors(_) => r.(status := Queued, error := None)
    case FinalizeDirect(_, dst, digest) =>
      r.(status := Complete, progress := 1.0, filePath := Some(dst), sha256 := digest)
    case MarkComplete(_, dst, newStatus, stats) =>
      if newStatus.Seeding?
      then r.(status := Seeding, progress := 1.0, filePath := Some(dst), seeds := stats, error := None)
      else r.(status := Complete, progress := 1.0, filePath := Some(dst), seeds := None, error := None)
    case SettleSeeding(_, note) =>
      r.(status := Complete, error := if note.Some? then note else r.error)
    case RetryInterruptedDirects => r.(status := Queued, filePath := None, error := None)
    case CancelUpdate(_) => r.(status := Cancelled)
    case BindHash(_, h) => r.(hash := Some(h))
    case ClearHash(_) => r.(hash := None)
    case DrainCancelledHashes => r.(hash := None)
    case RecordObservedDigest(_, observed) => r.(sha256 := Some(observed))
    case RefreshSeedingStats(_, seen) => r.(seeds := Some(seen))
    case RefreshProgress(_, progress) => r.(progress := progress)
    case ApplyStats(batch) => r.(progress := batch[id].progress, seeds := Some(batch[id].seeds))
  }

  /** A row that enters the table; an adoption only if no row carries its hash. */
  function Entering(t: Table, s: Statement): Option<Row> {
    match s
    case Insert(id, name, url, direct, claim) =>
      if id in t then None
      else Some(Row(name, url, direct, None, Queued, 0.0, None, None, claim, None))
    case AdoptTorrent(id, name, h, status, progress) =>
      if id in t || (exists i | i in t :: t[i].hash == Some(h)) then None
      else Some(Row(name, "qbt://" + h, false, Some(h), status, progress, None, None, None, None))
    case _ => None
  }

  /** The table the statement would leave if no index objected. */
  function Proposed(t: Table, s: Statement): Table {
    if s.Insert? || s.AdoptTorrent?
    then (if Entering(t, s).Some? then t[s.id := Entering(t, s).value] else t)
    else map i | i in t :: if Hits(s, i, t[i]) then Written(s, i, t[i]) else t[i]
  }

  /** One statement is atomic; a unique violation leaves the table alone. */
  function Exec(t: Table, s: Statement): Table {
    if UniqueActive(Proposed(t, s)) then Proposed(t, s) else t
  }

  /** The statement took effect on row `id`: its contribution to the row count. */
  predicate Affects(t: Table, s: Statement, id: int) {
    UniqueActive(Proposed(t, s)) && id in t && Hits(s, id, t[id])
  }

  ghost function Run(t: Table, ss: seq<Statement>): Table
    decreases |ss|
  {
    if ss == [] then t else Run(Exec(t, ss[0]), ss[1..])
  }

  /** A statement leaves a row as it was or writes it; a row that was not there has entered. */
  lemma ExecAt(t: Table, s: Statement, id: int)
    ensures id in t ==> id in Exec(t, s)
    ensures id in t ==> Exec(t, s)[id] == t[id] || (Hits(s, id, t[id]) && Exec(t, s)[id] == Written(s, id, t[id]))
    ensures id !in t && id in Exec(t, s) ==>
      (s.Insert? || s.AdoptTorrent?) && s.id == id && Entering(t, s) == Some(Exec(t, s)[id])
  {
  }

  // ---- What one statement can do -----------------------------------------------

  /** The documented edges, plus the recovery move of `mark_complete`. */
  predicate Edge(a: Status, b: Status) {
    a == b || CanTransition(a, b) || (a.Complete? && b.Seeding?)
  }

  lemma StepIsEdge(t: Table, s: Statement, id: int)
    requires id in t
    ensures id in Exec(t, s) && Edge(t[id].status, Exec(t, s)[id].status)
  {
    ExecAt(t, s, id);
    if Hits(s, id, t[id]) {
      WritingIsEdge(s, id, t[id]);
    }
  }

  lemma WritingIsEdge(s: Statement, id: int, r: Row)
    requires Hits(s, id, r)
    ensures Edge(r.status, Written(s, id, r).status)
  {
  }

  lemma StepKeepsIdentity(t: Table, s: Statement, id: int)
    requires id in t
    ensures id in Exec(t, s)
    ensures var r, q := t[id], Exec(t, s)[id]; q.name == r.name && q.url == r.url && q.direct == r.direct
  {
    ExecAt(t, s, id);
  }

  /** Only a completion marked as seeding on an already complete row leaves the
      documented table. */
  lemma OffTableExactly(t: Table, s: Statement, id: int)
    requires id in t
    ensures id in Exec(t, s)
    ensures var a, b := t[id].status, Exec(t, s)[id].status;
      (a != b && !CanTransition(a, b))
      <==> Affects(t, s, id) && s.MarkComplete? && s.newStatus.Seeding? && t[id].status.Complete?
  {
  }

  /** Inserting and re-queueing are the only statements a unique index can refuse. */
  lemma OnlyEntriesCanBeRefused(t: Table, s: Statement)
    requires UniqueActive(t) && !s.Insert? && !s.AdoptTorrent? && !s.RequeueStaleErrors?
    ensures UniqueActive(Proposed(t, s))
  {
    var u := Proposed(t, s);
    forall i | i in t
      ensures Active(u[i]) ==> Active(t[i])
      ensures u[i].url == t[i].url && u[i].name == t[i].name
    {
      if Hits(s, i, t[i]) {
        WritingWakesNobody(s, i, t[i]);
      }
    }
  }

  lemma WritingWakesNobody(s: Statement, id: int, r: Row)
    requires Hits(s, id, r) && !s.RequeueStaleErrors?
    ensures var q := Written(s, id, r); (Active(q) ==> Active(r)) && q.url == r.url && q.name == r.name
  {
  }

  /** A listed row in error shares URL or name with a live row, or with another such row. */
  predicate Collide(t: Table, ids: set<int>) {
    exists i, j | i in t && j in t :: i != j && i in ids && t[i].status.Error?
      && (t[j].status in {Queued, Downloading} || (j in ids && t[j].status.Error?))
      && (t[i].url == t[j].url || t[i].name == t[j].name)
  }

  /** A re-queue is refused exactly when it would make two live rows collide. */
  lemma RequeueRefusedExactly(t: Table, ids: set<int>)
    requires UniqueActive(t)
    ensures !UniqueActive(Proposed(t, RequeueStaleErrors(ids))) <==> Collide(t, ids)
  {
    var u := Proposed(t, RequeueStaleErrors(ids));
    assert forall i | i in t :: Active(u[i]) <==> Active(t[i]) || (i in ids && t[i].status.Error?);
  }

  // ---- Whole histories ----------------------------------------------------------

  lemma {:induction false} RunSplits(t: Table, ss: seq<Statement>, k: nat)
    requires k < |ss|
    ensures Run(t, ss[..k + 1]) == Exec(Run(t, ss[..k]), ss[k])
    decreases |ss|
  {
    if k == 0 {
      assert ss[..1][1..] == [];
      assert Run(t, ss[..1]) == Run(Exec(t, ss[0]), ss[..1][1..]);
    } else {
      RunSplits(Exec(t, ss[0]), ss[1..], k - 1);
      assert ss[..k + 1][1..] == ss[1..][..k];
      assert ss[..k][1..] == ss[1..][..k - 1];
    }
  }

  /** The statuses of a row along a run. */
  ghost function History(t: Table, ss: seq<Statement>, id: int): (h: seq<Status>)
    requires id in t
    ensures |h| == |ss| + 1
    decreases |ss|
  {
    if ss == [] then [t[id].status]
    else
      StepIsEdge(t, ss[0], id);
      [t[id].status] + History(Exec(t, ss[0]), ss[1..], id)
  }

  /** For every interleaving, a row's history walks the documented edges plus the
      one recovery move; the row itself never disappears or changes identity. */
  lemma {:induction false} HistoryIsAWalk(t: Table, ss: seq<Statement>, id: int, k: nat)
    requires id in t && k < |ss|
    ensures Edge(History(t, ss, id)[k], History(t, ss, id)[k + 1])
    decreases |ss|
  {
    StepIsEdge(t, ss[0], id);
    if k > 0 {
      HistoryIsAWalk(Exec(t, ss[0]), ss[1..], id, k - 1);
    }
  }

  lemma {:induction false} RowsStay(t: Table, ss: seq<Statement>, id: int)
    requires id in t
    ensures id in Run(t, ss)
    ensures var r, q := t[id], Run(t, ss)[id]; q.name == r.name && q.url == r.url
    ensures Run(t, ss)[id].status == History(t, ss, id)[|ss|]
    decreases |ss|
  {
    if ss != [] {
      StepKeepsIdentity(t, ss[0], id);
      RowsStay(Exec(t, ss[0]), ss[1..], id);
    }
  }

  /** Cancelled is absorbing; complete and seeding together are closed. */
  lemma {:induction false} EndsAreClosed(t: Table, ss: seq<Statement>, id: int)
    requires id in t
    ensures id in Run(t, ss)
    ensures t[id].status.Cancelled? ==> Run(t, ss)[id].status.Cancelled?
    ensures t[id].status in {Complete, Seeding} ==> Run(t, ss)[id].status in {Complete, Seeding}
    decreases |ss|
  {
    if ss != [] {
      StepIsEdge(t, ss[0], id);
      EndsAreClosed(Exec(t, ss[0]), ss[1..], id);
    }
  }

  lemma {:induction false} RunsStayUnique(t: Table, ss: seq<Statement>)
    requires UniqueActive(t)
    ensures UniqueActive(Run(t, ss))
    decreases |ss|
  {
    if ss != [] {
      RunsStayUnique(Exec(t, ss[0]), ss[1..]);
    }
  }

  predicate Clashes(t: Table, name: string, url: string) {
    exists i | i in t :: t[i].status in {Queued, Downloading} && (t[i].url == url || t[i].name == name)
  }

  lemma InsertRefusedExactly(t: Table, id: int, name: string, url: string, direct: bool, claim: Option<string>)
    requires UniqueActive(t) && id !in t
    ensures UniqueActive(Proposed(t, Insert(id, name, url, direct, claim))) <==> !Clashes(t, name, url)
    ensures Exec(t, Insert(id, name, url, direct, claim))
            == if Clashes(t, name, url) then t
               else t[id := Row(name, url, direct, None, Queued, 0.0, None, None, claim, None)]
  {
    var u := Proposed(t, Insert(id, name, url, direct, claim));
    assert u[id].url == url && u[id].name == name && Active(u[id]);
    if Clashes(t, name, url) {
      var i :| i in t && Active(t[i]) && (t[i].url == url || t[i].name == name);
      assert u[i] == t[i] && i != id;
    }
  }

  /** An adoption is refused exactly when a row carries the hash already, or the new row would
      be live and clash. */
  lemma AdoptRefusedExactly(t: Table, id: int, name: string, h: string, status: Status, progress: real)
    requires UniqueActive(t) && id !in t
    ensures Exec(t, AdoptTorrent(id, name, h, status, progress))
            == if (exists i | i in t :: t[i].hash == Some(h))
                  || (status in {Queued, Downloading} && Clashes(t, name, "qbt://" + h))
               then t
               else t[id := Row(name, "qbt://" + h, false, Some(h), status, progress, None, None, None, None)]
  {
    var q := Row(name, "qbt://" + h, false, Some(h), status, progress, None, None, None, None);
    var u := t[id := q];
    if Active(q) && Clashes(t, name, "qbt://" + h) {
      var i :| i in t && Active(t[i]) && (t[i].url == "qbt://" + h || t[i].name == name);
      assert u[i] == t[i] && i != id && u[id] == q;
    }
  }

  // ---- Cancel against completion --------------------------------------------------

  /** Statements that finish a row. */
  predicate Finishes(s: Statement, id: int) {
    (s.FinalizeDirect? || s.MarkComplete?) && s.id == id
  }

  lemma EndsStayClosed(t: Table, ss: seq<Statement>, id: int, i: nat, j: nat)
    requires i <= j <= |ss| && id in Run(t, ss[..i])
    ensures id in Run(t, ss[..j])
    ensures Run(t, ss[..i])[id].status.Cancelled? ==> Run(t, ss[..j])[id].status.Cancelled?
    ensures Run(t, ss[..i])[id].status in {Complete, Seeding} ==> Run(t, ss[..j])[id].status in {Complete, Seeding}
  {
    RunConcat(t, ss[..i], ss[i..j]);
    assert ss[..i] + ss[i..j] == ss[..j];
    EndsAreClosed(Run(t, ss[..i]), ss[i..j], id);
  }

  /** Once a cancel has taken effect, no later statement of any session moves the
      row again; in particular every finalize and completion matches no row. */
  lemma CancelIsFinal(t: Table, ss: seq<Statement>, id: int, i: nat, j: nat)
    requires i < j < |ss|
    requires Affects(Run(t, ss[..i]), ss[i], id) && ss[i].CancelUpdate?
    ensures var u := Run(t, ss[..j]);
      && id in u && u[id].status.Cancelled?
      && (Affects(u, ss[j], id) ==> ss[j].BindHash? || ss[j].ClearHash? || ss[j].DrainCancelledHashes?
                                    || ss[j].RefreshProgress? || ss[j].ApplyStats?)
      && (Finishes(ss[j], id) || ss[j] == CancelUpdate(id) ==> !Affects(u, ss[j], id))
  {
    RunSplits(t, ss, i);
    EndsStayClosed(t, ss, id, i + 1, j);
  }

  /** Once a completion has taken effect, no later cancel matches the row, and its
      status read answers complete or seeding. */
  lemma CompletionIsFinal(t: Table, ss: seq<Statement>, id: int, i: nat, j: nat)
    requires i < j < |ss|
    requires Affects(Run(t, ss[..i]), ss[i], id) && Finishes(ss[i], id)
    ensures var u := Run(t, ss[..j]);
      && id in u && u[id].status in {Complete, Seeding}
      && (ss[j] == CancelUpdate(id) ==> !Affects(u, ss[j], id))
  {
    RunSplits(t, ss, i);
    EndsStayClosed(t, ss, id, i + 1, j);
  }

  lemma {:induction false} RunConcat(t: Table, a: seq<Statement>, b: seq<Statement>)
    ensures Run(t, a + b) == Run(Run(t, a), b)
    decreases |a|
  {
    if a == [] {
      assert a + b == b;
    } else {
      assert (a + b)[1..] == a[1..] + b;
      RunConcat(Exec(t, a[0]), a[1..], b);
    }
  }

  datatype CancelOutcome = CancelledRow(id: int) | NotFound | NotCancellable(status: Status)

  /** `cancel_download` is an UPDATE and, when it matched nothing, a later SELECT;
      `between` is what other sessions ran in the gap. */
  ghost function CancelAnswer(t: Table, id: int, between: seq<Statement>): CancelOutcome {
    if Affects(t, CancelUpdate(id), id) then CancelledRow(id)
    else
      var u := Run(Exec(t, CancelUpdate(id)), between);
      if id in u then NotCancellable(u[id].status) else NotFound
  }

  /** A cancel issued anywhere after a completion is told that the row is finished. */
  lemma CancelAfterCompletion(t: Table, ss: seq<Statement>, id: int, i: nat, j: nat, between: seq<Statement>)
    requires i < j < |ss| && Affects(Run(t, ss[..i]), ss[i], id) && Finishes(ss[i], id)
    ensures var a := CancelAnswer(Run(t, ss[..j]), id, between);
      a.NotCancellable? && a.status in {Complete, Seeding}
  {
    CompletionIsFinal(t, ss, id, i, j);
    var u := Run(t, ss[..j]);
    assert !Affects(u, CancelUpdate(id), id);
    var v := Exec(u, CancelUpdate(id));
    assert v[id] == u[id];
    EndsAreClosed(v, between, id);
  }

  ghost predicate AnswersLive(t: Table, id: int, between: seq<Statement>) {
    var a := CancelAnswer(t, id, between);
    a.NotCancellable? && a.status in {Queued, Downloading}
  }

  /** The answer can name a live status exactly when the row is in error or absent at the
      UPDATE: it then enters the queue between the UPDATE and the SELECT. */
  lemma LiveAnswerExactly(t: Table, id: int)
    requires UniqueActive(t)
    ensures (exists between :: AnswersLive(t, id, between)) <==> id !in t || t[id].status.Error?
  {
    if between :| AnswersLive(t, id, between) {
      LiveAnswerNeedsEntry(t, id, between);
    }
    if id !in t {
      var between := InsertedMeanwhile(t, id);
    } else if t[id].status.Error? {
      var between := RequeuedMeanwhile(t, id);
    }
  }

  lemma LiveAnswerNeedsEntry(t: Table, id: int, between: seq<Statement>)
    requires UniqueActive(t) && AnswersLive(t, id, between)
    ensures id !in t || t[id].status.Error?
  {
    OnlyEntriesCanBeRefused(t, CancelUpdate(id));
    if id in t {
      var u := Exec(t, CancelUpdate(id));
      assert u[id] == t[id];
      EndsAreClosed(u, between, id);
    }
  }

  /** The UPDATE leaves such a table alone. */
  lemma CancelMisses(t: Table, id: int)
    requires UniqueActive(t) && (id !in t || t[id].status.Error?)
    ensures Exec(t, CancelUpdate(id)) == t && !Affects(t, CancelUpdate(id), id)
  {
    assert Proposed(t, CancelUpdate(id)) == t;
  }

  lemma {:induction false} LongerThanAll(names: set<string>) returns (x: string)
    ensures forall n <- names :: |n| < |x|
    decreases |names|
  {
    x := "x";
    if names != {} {
      var n :| n in names;
      var y := LongerThanAll(names - {n});
      x := y + n + "x";
    }
  }

  lemma InsertedMeanwhile(t: Table, id: int) returns (between: seq<Statement>)
    requires UniqueActive(t) && id !in t
    ensures AnswersLive(t, id, between)
  {
    var used := (set i | i in t :: t[i].name) + (set i | i in t :: t[i].url);
    var x := LongerThanAll(used);
    var s := Insert(id, x, x, true, None);
    between := [s];
    forall i | i in t ensures t[i].name != x && t[i].url != x {
      assert t[i].name in used && t[i].url in used;
    }
    InsertRefusedExactly(t, id, x, x, true, None);
    CancelMisses(t, id);
    OneStatement(t, s);
  }

  lemma OneStatement(t: Table, s: Statement)
    ensures Run(t, [s]) == Exec(t, s)
  {
    assert [s][1..] == [];
    assert Run(Exec(t, s), []) == Exec(t, s);
  }

  lemma RequeueSucceeds(t: Table, id: int)
    requires UniqueActive(t) && id in t && t[id].status.Error? && UrlFree(t, id) && NameFree(t, id)
    ensures var u := Exec(t, RequeueStaleErrors({id})); id in u && u[id].status.Queued?
  {
    RequeueRefusedExactly(t, {id});
  }

  /** Whoever holds the row's URL or name is cancelled first; one of each at most. */
  lemma RequeuedMeanwhile(t: Table, id: int) returns (between: seq<Statement>)
    requires UniqueActive(t) && id in t && t[id].status.Error?
    ensures AnswersLive(t, id, between)
  {
    var a := ClearUrl(t, id);
    var u := Exec(t, CancelUpdate(a));
    var b := ClearName(u, id);
    var v := Exec(u, CancelUpdate(b));
    var s := RequeueStaleErrors({id});
    RequeueSucceeds(v, id);
    between := [CancelUpdate(a), CancelUpdate(b), s];
    ThreeStatements(t, CancelUpdate(a), CancelUpdate(b), s);
    CancelMisses(t, id);
  }

  lemma ThreeStatements(t: Table, a: Statement, b: Statement, c: Statement)
    ensures Run(t, [a, b, c]) == Exec(Exec(Exec(t, a), b), c)
  {
    assert [a, b, c][1..] == [b, c] && [b, c][1..] == [c];
    OneStatement(Exec(Exec(t, a), b), c);
    assert Run(Exec(t, a), [b, c]) == Run(Exec(Exec(t, a), b), [c]);
  }

  ghost predicate UrlFree(t: Table, id: int)
    requires id in t
  {
    forall j | j in t && j != id && Active(t[j]) :: t[j].url != t[id].url
  }

  ghost predicate NameFree(t: Table, id: int)
    requires id in t
  {
    forall j | j in t && j != id && Active(t[j]) :: t[j].name != t[id].name
  }

  lemma ClearUrl(t: Table, id: int) returns (a: int)
    requires UniqueActive(t) && id in t && t[id].status.Error?
    ensures var u := Exec(t, CancelUpdate(a));
      UniqueActive(u) && id in u && u[id] == t[id] && UrlFree(u, id)
  {
    a := id;
    if !UrlFree(t, id) {
      a :| a in t && a != id && Active(t[a]) && t[a].url == t[id].url;
    }
    OnlyEntriesCanBeRefused(t, CancelUpdate(a));
  }

  lemma ClearName(t: Table, id: int) returns (a: int)
    requires UniqueActive(t) && id in t && t[id].status.Error? && UrlFree(t, id)
    ensures var u := Exec(t, CancelUpdate(a));
      UniqueActive(u) && id in u && u[id] == t[id] && UrlFree(u, id) && NameFree(u, id)
  {
    a := id;
    if !NameFree(t, id) {
      a :| a in t && a != id && Active(t[a]) && t[a].name == t[id].name;
    }
    OnlyEntriesCanBeRefused(t, CancelUpdate(a));
  }

  // ---- Claims against queue entries ---------------------------------------------------

  ghost predicate IsQueued(t: Table, id: int) {
    id in t && t[id].status.Queued?
  }

  /** Ways in and out of the queue for a row, counted along a run. */
  datatype Tally = Tally(entries: nat, claims: nat, failures: nat, cancels: nat)

  ghost function Count(t: Table, ss: seq<Statement>, id: int): Tally
    decreases |ss|
  {
    if ss == [] then Tally(0, 0, 0, 0)
    else
      var now, rest := CountOne(t, ss[0], id), Count(Exec(t, ss[0]), ss[1..], id);
      Tally(now.entries + rest.entries, now.claims + rest.claims,
            now.failures + rest.failures, now.cancels + rest.cancels)
  }

  ghost function CountOne(t: Table, s: Statement, id: int): Tally {
    var left := Affects(t, s, id) && IsQueued(t, id);
    Tally(One(!IsQueued(t, id) && IsQueued(Exec(t, s), id)),
          One(left && (s.ClaimDirect? || s.MarkDownloading?)),
          One(left && (s.MarkError? || s.MarkFatalError?)),
          One(left && s.CancelUpdate?))
  }

  lemma OneStepIsConserved(t: Table, s: Statement, id: int)
    ensures var c := CountOne(t, s, id);
      One(IsQueued(t, id)) + c.entries == c.claims + c.failures + c.cancels + One(IsQueued(Exec(t, s), id))
  {
  }

  /** Conservation: every entry to the queue is matched by exactly one successful
      claim, failure or cancel, except for a row that is still queued. So no two
      claims succeed without the row having been queued again in between. */
  lemma {:induction false} QueueEntriesAreConserved(t: Table, ss: seq<Statement>, id: int)
    ensures var c := Count(t, ss, id);
      One(IsQueued(t, id)) + c.entries == c.claims + c.failures + c.cancels + One(IsQueued(Run(t, ss), id))
    decreases |ss|
  {
    if ss != [] {
      OneStepIsConserved(t, ss[0], id);
      QueueEntriesAreConserved(Exec(t, ss[0]), ss[1..], id);
    }
  }

  /** A second claim needs a second entry: two claimants of one queued row, whatever
      ran before or after them, cannot both win. */
  lemma OneWinnerPerEntry(t: Table, ss: seq<Statement>, id: int)
    ensures Count(t, ss, id).claims <= Count(t, ss, id).entries + One(IsQueued(t, id))
  {
    QueueEntriesAreConserved(t, ss, id);
  }

  // ---- What the columns say -----------------------------------------------------------------

  /** Adoptions come in two statuses. */
  predicate Issued(s: Statement) {
    s.AdoptTorrent? ==> s.status in {Complete, Downloading}
  }

  /** A live or cancelled row has no note, a failed one has; a finished row names its file,
      unless it was adopted. */
  predicate Tidy(r: Row) {
    && (r.status in {Queued, Downloading, Cancelled} ==> r.error == None)
    && (r.status == Error ==> r.error.Some?)
    && (r.status in {Complete, Seeding} && !("qbt://" <= r.url) ==> r.filePath.Some?)
  }

  lemma StepStaysTidy(t: Table, s: Statement, id: int)
    requires Issued(s) && id in Exec(t, s) && (id in t ==> Tidy(t[id]))
    ensures Tidy(Exec(t, s)[id])
  {
    ExecAt(t, s, id);
    if id in t && Hits(s, id, t[id]) {
      WritingStaysTidy(s, id, t[id]);
    }
  }

  lemma WritingStaysTidy(s: Statement, id: int, r: Row)
    requires Hits(s, id, r) && Tidy(r)
    ensures Tidy(Written(s, id, r))
  {
  }

  lemma {:induction false} RunsStayTidy(t: Table, ss: seq<Statement>)
    requires (forall s <- ss :: Issued(s)) && (forall id <- t :: Tidy(t[id]))
    ensures forall id <- Run(t, ss) :: Tidy(Run(t, ss)[id])
    decreases |ss|
  {
    if ss != [] {
      var u := Exec(t, ss[0]);
      forall id | id in u ensures Tidy(u[id]) {
        StepStaysTidy(t, ss[0], id);
      }
      RunsStayTidy(u, ss[1..]);
    }
  }

  predicate Notes(s: Statement, id: int, msg: string) {
    s == MarkError(id, msg) || s == MarkFatalError(id, msg) || s == SettleSeeding(id, Some(msg))
  }

  predicate Places(s: Statement, id: int, path: string) {
    s == ClaimDirect(id, path) || ((s.FinalizeDirect? || s.MarkComplete?) && s.id == id && s.dst == path)
  }

  predicate Vouches(s: Statement, id: int, digest: string) {
    || s == RecordObservedDigest(id, digest)
    || (s.FinalizeDirect? && s.id == id && s.digest == Some(digest))
    || (s.Insert? && s.id == id && s.claim == Some(digest))
  }

  lemma StepSources(t: Table, s: Statement, id: int)
    requires id in Exec(t, s)
    ensures var q := Exec(t, s)[id];
      && (q.error.Some? ==> Notes(s, id, q.error.value) || (id in t && t[id].error == q.error))
      && (q.filePath.Some? ==> Places(s, id, q.filePath.value) || (id in t && t[id].filePath == q.filePath))
      && (q.sha256.Some? ==> Vouches(s, id, q.sha256.value) || (id in t && t[id].sha256 == q.sha256))
  {
    ExecAt(t, s, id);
    if id in t && Hits(s, id, t[id]) {
      WritingSources(s, id, t[id]);
    }
  }

  lemma WritingSources(s: Statement, id: int, r: Row)
    requires Hits(s, id, r)
    ensures var q := Written(s, id, r);
      && (q.error.Some? ==> Notes(s, id, q.error.value) || r.error == q.error)
      && (q.filePath.Some? ==> Places(s, id, q.filePath.value) || r.filePath == q.filePath)
      && (q.sha256.Some? ==> Vouches(s, id, q.sha256.value) || r.sha256 == q.sha256)
  {
  }

  /** Every note, path and digest found in a row was there at the start or was written by a
      statement of the run for that row. */
  lemma {:induction false} ColumnsHaveSources(t: Table, ss: seq<Statement>, id: int)
    requires id in Run(t, ss)
    ensures var q := Run(t, ss)[id];
      && (q.error.Some? ==>
            (exists s <- ss :: Notes(s, id, q.error.value)) || (id in t && t[id].error == q.error))
      && (q.filePath.Some? ==>
            (exists s <- ss :: Places(s, id, q.filePath.value)) || (id in t && t[id].filePath == q.filePath))
      && (q.sha256.Some? ==>
            (exists s <- ss :: Vouches(s, id, q.sha256.value)) || (id in t && t[id].sha256 == q.sha256))
    decreases |ss|
  {
    if ss != [] {
      var u := Exec(t, ss[0]);
      ColumnsHaveSources(u, ss[1..], id);
      if id in u {
        StepSources(t, ss[0], id);
      }
      assert ss[0] in ss && forall s <- ss[1..] :: s in ss;
    }
  }

  /** The progress a row shows after the unguarded refreshes of a run. */
  function LastProgress(ss: seq<Statement>, id: int, start: real): real
    decreases |ss|
  {
    if ss == [] then start
    else
      LastProgress(ss[1..], id,
                   if ss[0].RefreshProgress? && ss[0].id == id then ss[0].done
                   else if ss[0].ApplyStats? && id in ss[0].batch then ss[0].batch[id].progress
                   else start)
  }

  lemma StepKeepsInstalled(t: Table, s: Statement, id: int)
    requires UniqueActive(t) && id in t && t[id].status in {Complete, Seeding} && !Finishes(s, id)
    ensures id in Exec(t, s)
    ensures var r, q := t[id], Exec(t, s)[id];
      q.filePath == r.filePath && q.status in {Complete, Seeding} && q.progress == LastProgress([s], id, r.progress)
  {
    if !s.Insert? && !s.AdoptTorrent? && !s.RequeueStaleErrors? {
      OnlyEntriesCanBeRefused(t, s);
    }
    assert [s][1..] == [];
  }

  lemma {:induction false} InstalledStays(t: Table, ss: seq<Statement>, id: int)
    requires UniqueActive(t) && id in t && t[id].status in {Complete, Seeding}
    requires forall s <- ss :: !Finishes(s, id)
    ensures id in Run(t, ss)
    ensures Run(t, ss)[id].filePath == t[id].filePath
    ensures Run(t, ss)[id].progress == LastProgress(ss, id, t[id].progress)
    decreases |ss|
  {
    if ss != [] {
      StepKeepsInstalled(t, ss[0], id);
      assert [ss[0]][1..] == [];
      InstalledStays(Exec(t, ss[0]), ss[1..], id);
    }
  }

  /** From a completion that took effect up to the next one, the row names the installed file,
      and shows full progress exactly as long as no late refresh wrote another value. */
  lemma CompletionIsRecorded(t: Table, ss: seq<Statement>, id: int, i: nat, j: nat)
    requires UniqueActive(t) && i < j <= |ss| && Affects(Run(t, ss[..i]), ss[i], id)
    requires Finishes(ss[i], id) && forall s <- ss[i + 1..j] :: !Finishes(s, id)
    ensures var u := Run(t, ss[..j]);
      id in u && u[id].filePath == Some(ss[i].dst) && u[id].progress == LastProgress(ss[i + 1..j], id, 1.0)
  {
    RunsStayUnique(t, ss[..i + 1]);
    RunSplits(t, ss, i);
    RunConcat(t, ss[..i + 1], ss[i + 1..j]);
    assert ss[..i + 1] + ss[i + 1..j] == ss[..j];
    InstalledStays(Run(t, ss[..i + 1]), ss[i + 1..j], id);
  }

  /** So full progress is no invariant of complete rows: a refresh that comes late lowers it. */
  lemma LateRefreshLowersProgress(t: Table, id: int)
    requires UniqueActive(t) && id in t && t[id].status == Complete
    ensures Exec(t, RefreshProgress(id, 0.5)) == t[id := t[id].(progress := 0.5)]
  {
    OnlyEntriesCanBeRefused(t, RefreshProgress(id, 0.5));
    assert Proposed(t, RefreshProgress(id, 0.5)) == t[id := t[id].(progress := 0.5)];
  }

  // ---- The documented table is exactly what the statements do ---------------------------

  /** Some statement takes some row of some table from `a` to `b`. */
  ghost predicate Realised(a: Status, b: Status) {
    exists t: Table, s: Statement ::
      UniqueActive(t) && 0 in t && t[0].status == a && 0 in Exec(t, s) && Exec(t, s)[0].status == b
  }

  function Witness(a: Status, b: Status): Statement {
    match b
    case Queued => if a.Error? then RequeueStaleErrors({0}) else RetryInterruptedDirects
    case Downloading => MarkDownloading(0)
    case Complete => if a.Seeding? then SettleSeeding(0, None) else FinalizeDirect(0, "f", None)
    case Seeding => MarkComplete(0, "f", Seeding, None)
    case Error => MarkFatalError(0, "e")
    case Cancelled => CancelUpdate(0)
  }

  lemma WitnessRealises(a: Status, b: Status)
    requires CanTransition(a, b) || (a.Complete? && b.Seeding?)
    ensures Realised(a, b)
  {
    var r := Row("a", "u", true, None, a, 0.0, None, None, None, None);
    var s := Witness(a, b);
    assert Hits(s, 0, r) && Written(s, 0, r).status == b;
    var t: Table := map[0 := r];
    assert UniqueActive(t) && UniqueActive(Proposed(t, s));
    assert Exec(t, s)[0].status == b;
  }

  /** Between distinct statuses, the edges some statement performs are exactly the
      documented ones and complete-to-seeding. */
  lemma RealisedEdgesExactly(a: Status, b: Status)
    requires a != b
    ensures Realised(a, b) <==> CanTransition(a, b) || (a.Complete? && b.Seeding?)
  {
    if Realised(a, b) {
      var t: Table, s: Statement :|
        UniqueActive(t) && 0 in t && t[0].status == a && 0 in Exec(t, s) && Exec(t, s)[0].status == b;
      StepIsEdge(t, s, 0);
    }
    if CanTransition(a, b) || (a.Complete? && b.Seeding?) {
      WitnessRealises(a, b);
    }
  }

  // ---- The table as an object -----------------------------------------------------------

  datatype InsertOutcome = Inserted(id: int) | Duplicate

  datatype DbError = UniqueViolation

  /** The `downloads` table behind the pool; every method is one call of the source. */
  class Store {
    var rows: Table

    predicate Valid()
      reads this
    {
      UniqueActive(rows)
    }

    constructor ()
      ensures Valid() && rows == map[]
    {
      rows := map[];
    }

    /** Statements of other sessions, one after the other. */
    method Execute(ss: seq<Statement>)
      requires Valid()
      modifies this
      ensures Valid() && rows == Run(old(rows), ss)
    {
      assert ss[..0] == [];
      for i := 0 to |ss|
        invariant Valid() && rows == Run(old(rows), ss[..i])
      {
        RunSplits(old(rows), ss, i);
        rows := Exec(rows, ss[i]);
      }
      assert ss[..|ss|] == ss;
    }

    method ClaimDirect(id: int, part: string) returns (n: nat)
      requires Valid()
      modifies this
      ensures Valid() && rows == Exec(old(rows), Statement.ClaimDirect(id, part))
      ensures n == One(id in old(rows) && old(rows)[id].status.Queued?)
      ensures rows == if n == 1 then old(rows)[id := old(rows)[id].(status := Downloading, filePath := Some(part))]
                      else old(rows)
    {
      OnlyEntriesCanBeRefused(rows, Statement.ClaimDirect(id, part));
      n := 0;
      if id in rows && rows[id].status.Queued? {
        rows := rows[id := rows[id].(status := Downloading, filePath := Some(part))];
        n := 1;
      }
      assert rows == Proposed(old(rows), Statement.ClaimDirect(id, part));
    }

    method MarkDownloading(id: int) returns (n: nat)
      requires Valid()
      modifies this
      ensures Valid() && rows == Exec(old(rows), Statement.MarkDownloading(id))
      ensures n == One(id in old(rows) && old(rows)[id].status.Queued?)
      ensures rows == if n == 1 then old(rows)[id := old(rows)[id].(status := Downloading)] else old(rows)
    {
      OnlyEntriesCanBeRefused(rows, Statement.MarkDownloading(id));
      n := 0;
      if id in rows && rows[id].status.Queued? {
        rows := rows[id := rows[id].(status := Downloading)];
        n := 1;
      }
      assert rows == Proposed(old(rows), Statement.MarkDownloading(id));
    }

    method MarkError(id: int, msg: string)
      requires Valid()
      modifies this
      ensures Valid() && rows == Exec(old(rows), Statement.MarkError(id, msg))
      ensures rows == if id in old(rows) && old(rows)[id].status in {Queued, Downloading}
                      then old(rows)[id := old(rows)[id].(status := Error, error := Some(msg))]
                      else old(rows)
    {
      OnlyEntriesCanBeRefused(rows, Statement.MarkError(id, msg));
      assert id in rows ==> (Active(rows[id]) <==> rows[id].status !in {Cancelled, Complete, Seeding, Error});
      if id in rows && rows[id].status !in {Cancelled, Complete, Seeding, Error} {
        rows := rows[id := rows[id].(status := Error, error := Some(msg))];
      }
      assert rows == Proposed(old(rows), Statement.MarkError(id, msg));
    }

    method FinalizeDirect(id: int, dst: string, digest: Option<string>) returns (n: nat)
      requires Valid()
      modifies this
      ensures Valid() && rows == Exec(old(rows), Statement.FinalizeDirect(id, dst, digest))
      ensures n == One(id in old(rows) && old(rows)[id].status.Downloading?)
      ensures rows == if n == 1
                      then old(rows)[id := old(rows)[id].(status := Complete, progress := 1.0,
                                                          filePath := Some(dst), sha256 := digest)]
                      else old(rows)
    {
      OnlyEntriesCanBeRefused(rows, Statement.FinalizeDirect(id, dst, digest));
      n := 0;
      if id in rows && rows[id].status.Downloading? {
        rows := rows[id := rows[id].(status := Complete, progress := 1.0, filePath := Some(dst), sha256 := digest)];
        n := 1;
      }
      assert rows == Proposed(old(rows), Statement.FinalizeDirect(id, dst, digest));
    }

    method MarkComplete(id: int, dst: string, newStatus: Status, stats: Option<SeedStats>) returns (n: nat)
      requires Valid()
      modifies this
      ensures Valid() && rows == Exec(old(rows), Statement.MarkComplete(id, dst, newStatus, stats))
      ensures n == One(id in old(rows) && old(rows)[id].status in {Downloading, Complete})
      ensures rows == if n == 0 then old(rows)
                      else old(rows)[id := old(rows)[id].(
                        status := if newStatus == Seeding then Seeding else Complete, progress := 1.0,
                        filePath := Some(dst), error := None, seeds := if newStatus == Seeding then stats else None)]
    {
      OnlyEntriesCanBeRefused(rows, Statement.MarkComplete(id, dst, newStatus, stats));
      n := 0;
      if id in rows && rows[id].status in {Downloading, Complete} {
        var settled := rows[id].(progress := 1.0, filePath := Some(dst), error := None);
        if newStatus.Seeding? {
          settled := settled.(status := Seeding, seeds := stats);
        } else {
          settled := settled.(status := Complete, seeds := None);
        }
        rows := rows[id := settled];
        n := 1;
      }
      assert rows == Proposed(old(rows), Statement.MarkComplete(id, dst, newStatus, stats));
    }

    method MarkFatalError(id: int, msg: string) returns (n: nat)
      requires Valid()
      modifies this
      ensures Valid() && rows == Exec(old(rows), Statement.MarkFatalError(id, msg))
      ensures n == One(id in old(rows) && old(rows)[id].status in {Queued, Downloading})
      ensures rows == if n == 1 then old(rows)[id := old(rows)[id].(status := Error, error := Some(msg))] else old(rows)
    {
      OnlyEntriesCanBeRefused(rows, Statement.MarkFatalError(id, msg));
      n := 0;
      if id in rows && rows[id].status in {Queued, Downloading} {
        rows := rows[id := rows[id].(status := Error, error := Some(msg))];
        n := 1;
      }
      assert rows == Proposed(old(rows), Statement.MarkFatalError(id, msg));
    }

    method SettleSeeding(id: int, note: Option<string>)
      requires Valid()
      modifies this
      ensures Valid() && rows == Exec(old(rows), Statement.SettleSeeding(id, note))
      ensures rows == if id !in old(rows) || old(rows)[id].status != Seeding then old(rows)
                      else if note == None then old(rows)[id := old(rows)[id].(status := Complete)]
                      else old(rows)[id := old(rows)[id].(status := Complete, error := note)]
    {
      OnlyEntriesCanBeRefused(rows, Statement.SettleSeeding(id, note));
      if id in rows && rows[id].status.Seeding? {
        var settled := rows[id].(status := Complete);
        rows := rows[id := if note.Some? then settled.(error := note) else settled];
      }
      assert rows == Proposed(old(rows), Statement.SettleSeeding(id, note));
    }

    method BindHash(id: int, newHash: string)
      requires Valid()
      modifies this
      ensures Valid() && rows == Exec(old(rows), Statement.BindHash(id, newHash))
      ensures rows == if id in old(rows) then old(rows)[id := old(rows)[id].(hash := Some(newHash))] else old(rows)
    {
      OnlyEntriesCanBeRefused(rows, Statement.BindHash(id, newHash));
      if id in rows {
        rows := rows[id := rows[id].(hash := Some(newHash))];
      }
      assert rows == Proposed(old(rows), Statement.BindHash(id, newHash));
    }

    method ClearHash(id: int)
      requires Valid()
      modifies this
      ensures Valid() && rows == Exec(old(rows), Statement.ClearHash(id))
      ensures rows == if id in old(rows) then old(rows)[id := old(rows)[id].(hash := None)] else old(rows)
    {
      OnlyEntriesCanBeRefused(rows, Statement.ClearHash(id));
      if id in rows {
        rows := rows[id := rows[id].(hash := None)];
      }
      assert rows == Proposed(old(rows), Statement.ClearHash(id));
    }

    method DrainCancelledHashes() returns (n: nat)
      requires Valid()
      modifies this
      ensures Valid() && rows == Exec(old(rows), Statement.DrainCancelledHashes)
      ensures rows.Keys == old(rows).Keys
      ensures forall i | i in rows ::
        rows[i] == if old(rows)[i].status == Cancelled then old(rows)[i].(hash := None) else old(rows)[i]
      ensures n == |set i | i in old(rows) && old(rows)[i].status == Cancelled && old(rows)[i].hash != None|
    {
      OnlyEntriesCanBeRefused(rows, Statement.DrainCancelledHashes);
      n := |set i | i in rows && rows[i].status == Cancelled && rows[i].hash != None|;
      rows := map i | i in rows ::
        if rows[i].status.Cancelled? && rows[i].hash.Some? then rows[i].(hash := None) else rows[i];
      assert rows == Proposed(old(rows), Statement.DrainCancelledHashes);
    }

    method RecordObservedDigest(id: int, observed: string) returns (n: nat)
      requires Valid()
      modifies this
      ensures Valid() && rows == Exec(old(rows), Statement.RecordObservedDigest(id, observed))
      ensures n == One(id in old(rows) && old(rows)[id].status in {Complete, Seeding})
      ensures rows == if n == 1 then old(rows)[id := old(rows)[id].(sha256 := Some(observed))] else old(rows)
    {
      OnlyEntriesCanBeRefused(rows, Statement.RecordObservedDigest(id, observed));
      n := 0;
      if id in rows && rows[id].status in {Complete, Seeding} {
        rows := rows[id := rows[id].(sha256 := Some(observed))];
        n := 1;
      }
      assert rows == Proposed(old(rows), Statement.RecordObservedDigest(id, observed));
    }

    method RefreshSeedingStats(id: int, seen: SeedStats)
      requires Valid()
      modifies this
      ensures Valid() && rows == Exec(old(rows), Statement.RefreshSeedingStats(id, seen))
      ensures rows == if id in old(rows) && old(rows)[id].status == Seeding
                      then old(rows)[id := old(rows)[id].(seeds := Some(seen))] else old(rows)
    {
      OnlyEntriesCanBeRefused(rows, Statement.RefreshSeedingStats(id, seen));
      if id in rows && rows[id].status.Seeding? {
        rows := rows[id := rows[id].(seeds := Some(seen))];
      }
      assert rows == Proposed(old(rows), Statement.RefreshSeedingStats(id, seen));
    }

    /** Unguarded: a late tick of a stream also lands on a finished row. */
    method RefreshProgress(id: int, done: real)
      requires Valid()
      modifies this
      ensures Valid() && rows == Exec(old(rows), Statement.RefreshProgress(id, done))
      ensures rows == if id in old(rows) then old(rows)[id := old(rows)[id].(progress := done)] else old(rows)
    {
      OnlyEntriesCanBeRefused(rows, Statement.RefreshProgress(id, done));
      if id in rows {
        rows := rows[id := rows[id].(progress := done)];
      }
      assert rows == Proposed(old(rows), Statement.RefreshProgress(id, done));
    }

    /** One UPDATE for the whole batch, unguarded as well. */
    method ApplyStats(batch: map<int, Stats>)
      requires Valid()
      modifies this
      ensures Valid() && rows == Exec(old(rows), Statement.ApplyStats(batch))
      ensures rows.Keys == old(rows).Keys
      ensures forall i | i in rows ::
        rows[i] == if i in batch then old(rows)[i].(progress := batch[i].progress, seeds := Some(batch[i].seeds))
                   else old(rows)[i]
    {
      OnlyEntriesCanBeRefused(rows, Statement.ApplyStats(batch));
      rows := map i | i in rows ::
        if i in batch then rows[i].(progress := batch[i].progress, seeds := Some(batch[i].seeds)) else rows[i];
      assert rows == Proposed(old(rows), Statement.ApplyStats(batch));
    }

    /** A torrent without a row gets one; an index violation is swallowed. */
    method AdoptTorrent(id: int, name: string, qbHash: string, status: Status, progress: real)
      requires Valid() && id !in rows
      modifies this
      ensures Valid() && rows == Exec(old(rows), Statement.AdoptTorrent(id, name, qbHash, status, progress))
      ensures rows == if (exists i | i in old(rows) :: old(rows)[i].hash == Some(qbHash))
                         || (status in {Queued, Downloading} && Clashes(old(rows), name, "qbt://" + qbHash))
                      then old(rows)
                      else old(rows)[id := Row(name, "qbt://" + qbHash, false, Some(qbHash), status, progress,
                                               None, None, None, None)]
    {
      AdoptRefusedExactly(rows, id, name, qbHash, status, progress);
      if !exists i | i in rows :: rows[i].hash == Some(qbHash) {
        var adopted := Row(name, "qbt://" + qbHash, false, Some(qbHash), status, progress, None, None, None, None);
        if UniqueActive(rows[id := adopted]) {
          rows := rows[id := adopted];
        }
      }
    }

    /** Both statuses are active, so no index can object. */
    method RetryInterruptedDirects() returns (n: nat)
      requires Valid()
      modifies this
      ensures Valid() && rows == Exec(old(rows), Statement.RetryInterruptedDirects)
      ensures rows.Keys == old(rows).Keys
      ensures forall i | i in rows ::
        rows[i] == if old(rows)[i].status == Downloading && old(rows)[i].direct
                   then old(rows)[i].(status := Queued, filePath := None, error := None) else old(rows)[i]
      ensures n == |set i | i in old(rows) && old(rows)[i].status.Downloading? && old(rows)[i].direct|
    {
      OnlyEntriesCanBeRefused(rows, Statement.RetryInterruptedDirects);
      n := |set i | i in rows && rows[i].status.Downloading? && rows[i].direct|;
      rows := map i | i in rows ::
        if rows[i].status.Downloading? && rows[i].direct
        then rows[i].(status := Queued, filePath := None, error := None) else rows[i];
      assert rows == Proposed(old(rows), Statement.RetryInterruptedDirects);
    }

    /** One bulk UPDATE: all the ids that are still in error, or none on a collision. */
    method RequeueStaleErrors(ids: set<int>) returns (r: Result<nat, DbError>)
      requires Valid()
      modifies this
      ensures Valid() && rows == Exec(old(rows), Statement.RequeueStaleErrors(ids))
      ensures r.Ok? ==> r.value == |set i | i in old(rows) && i in ids && old(rows)[i].status.Error?|
      ensures r.Err? <==> Collide(old(rows), ids)
      ensures r.Err? ==> rows == old(rows)
      ensures rows.Keys == old(rows).Keys
      ensures r.Ok? ==> forall i | i in rows ::
        rows[i] == if i in ids && old(rows)[i].status == Error
                   then old(rows)[i].(status := Queued, error := None) else old(rows)[i]
    {
      RequeueRefusedExactly(rows, ids);
      var after := map i | i in rows ::
        if i in ids && rows[i].status.Error? then rows[i].(status := Queued, error := None) else rows[i];
      assert after == Proposed(rows, Statement.RequeueStaleErrors(ids));
      if UniqueActive(after) {
        r := Ok(|set i | i in rows && i in ids && rows[i].status.Error?|);
        rows := after;
      } else {
        r := Err(UniqueViolation);
      }
    }

    /** Update, then look: `between` is what other sessions did in the gap. */
    method CancelDownload(id: int, between: seq<Statement>) returns (r: CancelOutcome)
      requires Valid()
      modifies this
      ensures Valid() && r == CancelAnswer(old(rows), id, between)
      ensures r.CancelledRow? <==> id in old(rows) && old(rows)[id].status in {Queued, Downloading}
      ensures rows == if r.CancelledRow? then old(rows)[id := old(rows)[id].(status := Cancelled)]
                      else Run(old(rows), between)
      ensures !r.CancelledRow? ==> r == if id in rows then NotCancellable(rows[id].status) else NotFound
    {
      OnlyEntriesCanBeRefused(rows, CancelUpdate(id));
      var updated := 0;
      if id in rows && rows[id].status in {Queued, Downloading} {
        rows := rows[id := rows[id].(status := Cancelled)];
        updated := 1;
      }
      assert rows == Proposed(old(rows), CancelUpdate(id));
      if updated > 0 {
        return CancelledRow(id);
      }
      Execute(between);
      r := if id in rows then NotCancellable(rows[id].status) else NotFound;
    }

    /** Look, then insert: the check is only fast feedback, the indexes decide. The
        answer is `Duplicate` exactly when a live row shared the URL or name at the
        check or at the INSERT. */
    method InsertDownload(name: string, url: string, direct: bool, id: int, between: seq<Statement>)
        returns (r: InsertOutcome)
      requires Valid() && id !in Run(rows, between)
      modifies this
      ensures Valid()
      ensures r.Duplicate? <==> Clashes(old(rows), name, url) || Clashes(Run(old(rows), between), name, url)
      ensures r.Inserted? ==> r.id == id && rows == Run(old(rows), between)[
        id := Row(name, url, direct, None, Queued, 0.0, None, None, None, None)]
      ensures r.Duplicate? ==> rows == if Clashes(old(rows), name, url) then old(rows) else Run(old(rows), between)
    {
      if Clashes(rows, name, url) {
        return Duplicate;
      }
      Execute(between);
      var entered := rows[id := Row(name, url, direct, None, Queued, 0.0, None, None, None, None)];
      InsertRefusedExactly(rows, id, name, url, direct, None);
      if !UniqueActive(entered) {
        return Duplicate;
      }
      rows := entered;
      r := Inserted(id);
    }
  }

  /** Adopting a torrent again changes nothing, whatever id and status it would get. */
  lemma AdoptionIsIdempotent(t: Table, a: Statement, b: Statement)
    requires UniqueActive(t) && a.AdoptTorrent? && b.AdoptTorrent? && a.qbHash == b.qbHash
    requires a.id !in t && Exec(t, a) != t
    ensures Exec(Exec(t, a), b) == Exec(t, a)
  {
    var u := Exec(t, a);
    assert a.id in u && u[a.id].hash == Some(b.qbHash);
  }
}
