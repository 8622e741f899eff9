/** The startup migration runner (`src/db/migrate.rs`): numbered scripts applied once each
    and recorded with a content hash, by processes that may start together, crash at any
    point and start again with another build. */
module Migrations {
  datatype File = File(name: string, body: string)

  /** `schema_migrations`: missing, in the current shape, or in the old one. */
  datatype Table = Missing | Current | Legacy

  /** `records` maps names to hashes; `schema` lists the scripts that have taken effect, in
      the order in which they did. */
  datatype Db = Db(table: Table, records: map<string, string>, schema: seq<File>)

  datatype Outcome = Applied | LegacySchema | Edited(at: nat) | Conflict | Aborted

  /** Where one starting process is, and the files its build carries. `InTx` has run the
      script of file `i` in a transaction that is still open. `Finished` has an outcome but
      has not yet released the lock. */
  datatype Pc =
    | Down
    | Waiting(files: seq<File>)
    | Probing(files: seq<File>)
    | Creating(files: seq<File>)
    | Checking(files: seq<File>, i: nat)
    | InTx(files: seq<File>, i: nat)
    | Finished(files: seq<File>, outcome: Outcome)
    | Ended(files: seq<File>, outcome: Outcome)

  datatype State = State(db: Db, lock: set<nat>, starters: seq<Pc>)

  datatype Action =
    | Start(c: nat, files: seq<File>)
    | Lock(c: nat)
    | Probe(c: nat)
    | CreateTable(c: nat)
    | Check(c: nat)
    | Commit(c: nat)
    | Fail(c: nat)
    | Unlock(c: nat)
    | Crash(c: nat)

  /** `locked` says whether starters take the advisory lock, as the code does; `md5` is the
      server's hash. */
  datatype Setting = Setting(locked: bool, md5: string -> string)

  predicate Active(p: Pc) {
    p.Probing? || p.Creating? || p.Checking? || p.InTx? || p.Finished?
  }

  predicate Enabled(g: Setting, s: State, a: Action) {
    a.c < |s.starters| && var p := s.starters[a.c];
    match a
    case Start(_, _) => p.Down? || p.Ended?
    case Lock(_) => p.Waiting? && (g.locked ==> s.lock == {})
    case Probe(_) => p.Probing?
    case CreateTable(_) => p.Creating?
    case Check(_) => p.Checking?
    case Commit(_) => p.InTx? && p.i < |p.files|
    case Fail(_) => Active(p) && !p.Finished?
    case Unlock(_) => p.Finished?
    case Crash(_) => true
  }

  function Move(s: State, c: nat, p: Pc): State
    requires c < |s.starters|
  {
    s.(starters := s.starters[c := p])
  }

  function Checked(g: Setting, db: Db, files: seq<File>, i: nat): Pc {
    if i >= |files| then Finished(files, Applied)
    else if files[i].name !in db.records then InTx(files, i)
    else if db.records[files[i].name] == g.md5(files[i].body) then Checking(files, i + 1)
    else Finished(files, Edited(i))
  }

  /** The tracking INSERT commits with the script; its primary key refuses a second row. */
  function Committed(g: Setting, s: State, c: nat, files: seq<File>, i: nat): State
    requires c < |s.starters| && i < |files|
  {
    var f := files[i];
    if f.name in s.db.records then Move(s, c, Finished(files, Conflict))
    else Move(s, c, Checking(files, i + 1)).(db := Record(g, s.db, f))
  }

  function Record(g: Setting, db: Db, f: File): Db {
    db.(records := db.records[f.name := g.md5(f.body)], schema := db.schema + [f])
  }

  function Next(g: Setting, s: State, a: Action): State
    requires Enabled(g, s, a)
  {
    var p := s.starters[a.c];
    match a
    case Start(c, files) => Move(s, c, Waiting(files))
    case Lock(c) => Move(s, c, Probing(p.files)).(lock := if g.locked then {c} else {})
    case Probe(c) =>
      Move(s, c, match s.db.table
                 case Missing => Creating(p.files)
                 case Current => Checking(p.files, 0)
                 case Legacy => Finished(p.files, LegacySchema))
    case CreateTable(c) =>
      if s.db.table != Missing then Move(s, c, Finished(p.files, Conflict))
      else Move(s, c, Checking(p.files, 0)).(db := s.db.(table := Current))
    case Check(c) => Move(s, c, Checked(g, s.db, p.files, p.i))
    case Commit(c) => Committed(g, s, c, p.files, p.i)
    case Fail(c) => Move(s, c, Finished(p.files, Aborted))
    case Unlock(c) => Move(s, c, Ended(p.files, p.outcome)).(lock := s.lock - {c})
    case Crash(c) => Move(s, c, Down).(lock := s.lock - {c})
  }

  predicate Legal(g: Setting, s: State, acts: seq<Action>)
    decreases |acts|
  {
    acts == [] || (Enabled(g, s, acts[0]) && Legal(g, Next(g, s, acts[0]), acts[1..]))
  }

  function After(g: Setting, s: State, acts: seq<Action>): State
    requires Legal(g, s, acts)
    decreases |acts|
  {
    if acts == [] then s else After(g, Next(g, s, acts[0]), acts[1..])
  }

  /** `n` processes, none started, on a new or legacy database. */
  function Init(n: nat, table: Table): State
    requires !table.Current?
  {
    State(Db(table, map[], []), {}, seq(n, _ => Down))
  }

  // ---- What every step keeps --------------------------------------------------------------

  predicate Matches(g: Setting, db: Db, f: File) {
    f.name in db.records && db.records[f.name] == g.md5(f.body)
  }

  /** The schema is what the records say: each recorded name took effect once, with the
      script whose hash is recorded, and nothing else did. */
  ghost predicate Faithful(g: Setting, db: Db) {
    && (forall i, j | 0 <= i < j < |db.schema| :: db.schema[i].name != db.schema[j].name)
    && (forall f <- db.schema :: Matches(g, db, f))
    && (forall name <- db.records :: exists f <- db.schema :: f.name == name)
    && (db.table != Current ==> db.records == map[] && db.schema == [])
  }

  predicate MatchesTo(g: Setting, db: Db, files: seq<File>, i: nat) {
    i <= |files| && forall j | 0 <= j < i :: Matches(g, db, files[j])
  }

  predicate EditedAt(g: Setting, db: Db, files: seq<File>, i: nat) {
    i < |files| && MatchesTo(g, db, files, i) && files[i].name in db.records && !Matches(g, db, files[i])
  }

  predicate OutcomeOk(g: Setting, db: Db, files: seq<File>, o: Outcome) {
    match o
    case Applied => MatchesTo(g, db, files, |files|)
    case Edited(i) => EditedAt(g, db, files, i)
    case _ => true
  }

  /** A starter at file `i` has seen every earlier file recorded with its own hash. */
  predicate PcOk(g: Setting, db: Db, p: Pc) {
    match p
    case Checking(files, i) => db.table.Current? && MatchesTo(g, db, files, i)
    case InTx(files, i) => db.table.Current? && i < |files| && MatchesTo(g, db, files, i)
    case Finished(files, o) => OutcomeOk(g, db, files, o)
    case Ended(files, o) => OutcomeOk(g, db, files, o)
    case _ => true
  }

  ghost predicate Inv(g: Setting, s: State) {
    && Faithful(g, s.db)
    && forall c | 0 <= c < |s.starters| :: PcOk(g, s.db, s.starters[c])
  }

  /** Records are only ever added. */
  predicate Grows(a: Db, b: Db) {
    && (forall name <- a.records :: name in b.records && b.records[name] == a.records[name])
    && a.schema <= b.schema
    && (a.table.Current? ==> b.table.Current?)
  }

  lemma GrowthKeepsPc(g: Setting, a: Db, b: Db, p: Pc)
    requires Grows(a, b) && PcOk(g, a, p)
    ensures PcOk(g, b, p)
  {
  }

  lemma RecordIsFaithful(g: Setting, db: Db, f: File)
    requires Faithful(g, db) && db.table.Current? && f.name !in db.records
    ensures Faithful(g, Record(g, db, f)) && Grows(db, Record(g, db, f)) && Matches(g, Record(g, db, f), f)
  {
    var r := Record(g, db, f);
    forall e <- r.schema ensures Matches(g, r, e) {
      assert e == f || (e in db.schema && Matches(g, db, e));
    }
    forall i | 0 <= i < |db.schema| ensures db.schema[i].name != f.name {
      assert db.schema[i] in db.schema;
    }
    forall name <- r.records ensures exists e <- r.schema :: e.name == name {
      if name == f.name {
        assert r.schema[|db.schema|] == f;
      } else {
        var e :| e in db.schema && e.name == name;
        assert e in r.schema;
      }
    }
  }

  /** A step leaves the database alone, creates the table, or records one new file. */
  lemma DbStep(g: Setting, s: State, a: Action)
    requires Inv(g, s) && Enabled(g, s, a)
    ensures var t := Next(g, s, a); Faithful(g, t.db) && Grows(s.db, t.db) && |t.starters| == |s.starters|
  {
    if a.Commit? {
      var p := s.starters[a.c];
      assert PcOk(g, s.db, p);
      if p.files[p.i].name !in s.db.records {
        RecordIsFaithful(g, s.db, p.files[p.i]);
      }
    }
  }

  lemma MoverStep(g: Setting, s: State, a: Action)
    requires Inv(g, s) && Enabled(g, s, a)
    ensures PcOk(g, Next(g, s, a).db, Next(g, s, a).starters[a.c])
  {
    var p := s.starters[a.c];
    assert PcOk(g, s.db, p);
    match a
    case Check(_) => CheckedIsOk(g, s.db, p.files, p.i);
    case Commit(c) => CommittedIsOk(g, s, c);
    case _ =>
  }

  lemma CheckedIsOk(g: Setting, db: Db, files: seq<File>, i: nat)
    requires PcOk(g, db, Checking(files, i))
    ensures PcOk(g, db, Checked(g, db, files, i))
  {
  }

  lemma CommittedIsOk(g: Setting, s: State, c: nat)
    requires Inv(g, s) && Enabled(g, s, Commit(c))
    ensures PcOk(g, Next(g, s, Commit(c)).db, Next(g, s, Commit(c)).starters[c])
  {
    var p := s.starters[c];
    assert PcOk(g, s.db, p);
    var f := p.files[p.i];
    if f.name !in s.db.records {
      RecordIsFaithful(g, s.db, f);
      GrowthKeepsPc(g, s.db, Record(g, s.db, f), p);
    }
  }

  lemma StepKeepsInv(g: Setting, s: State, a: Action)
    requires Inv(g, s) && Enabled(g, s, a)
    ensures Inv(g, Next(g, s, a)) && Grows(s.db, Next(g, s, a).db)
  {
    var t := Next(g, s, a);
    DbStep(g, s, a);
    MoverStep(g, s, a);
    forall c | 0 <= c < |t.starters| ensures PcOk(g, t.db, t.starters[c]) {
      if c != a.c {
        assert t.starters[c] == s.starters[c];
        GrowthKeepsPc(g, s.db, t.db, s.starters[c]);
      }
    }
  }

  /** Over any run of starts, crashes, failures and interleavings, locked or not: every
      script takes effect at most once, the schema is always what the records say, an `Ok`
      means all the build's files are recorded with its hashes, and records last. */
  lemma {:induction false} RunsKeepInv(g: Setting, s: State, acts: seq<Action>)
    requires Inv(g, s) && Legal(g, s, acts)
    ensures Inv(g, After(g, s, acts)) && Grows(s.db, After(g, s, acts).db)
    decreases |acts|
  {
    if acts != [] {
      StepKeepsInv(g, s, acts[0]);
      RunsKeepInv(g, Next(g, s, acts[0]), acts[1..]);
    }
  }

  // ---- Append-only releases apply a prefix ------------------------------------------------

  predicate Carries(p: Pc, all: seq<File>) {
    p.Down? || p.files <= all
  }

  /** Every build started carries a prefix of one list, as when files are only appended. */
  ghost predicate AppendOnly(all: seq<File>, acts: seq<Action>) {
    forall a <- acts | a.Start? :: a.files <= all
  }

  ghost predicate PrefixInv(g: Setting, s: State, all: seq<File>) {
    && Inv(g, s)
    && s.db.schema <= all
    && forall c | 0 <= c < |s.starters| :: Carries(s.starters[c], all)
  }

  ghost predicate DistinctNames(files: seq<File>) {
    forall i, j | 0 <= i < j < |files| :: files[i].name != files[j].name
  }

  /** The file committed is the next one of the list. */
  lemma CommitIsNext(g: Setting, db: Db, all: seq<File>, i: nat)
    requires Faithful(g, db) && DistinctNames(all) && db.schema <= all
    requires i < |all| && MatchesTo(g, db, all, i) && all[i].name !in db.records
    ensures i == |db.schema|
  {
    forall k | 0 <= k < |db.schema| ensures all[k].name in db.records {
      assert db.schema[k] in db.schema;
    }
    forall j | |db.schema| <= j < |all| ensures all[j].name !in db.records {
      forall f <- db.schema ensures f.name != all[j].name {
        var k :| 0 <= k < |db.schema| && db.schema[k] == f;
        assert all[k] == f;
      }
    }
    assert |db.schema| < i ==> Matches(g, db, all[|db.schema|]);
  }

  lemma CommitKeepsPrefix(g: Setting, s: State, a: Action, all: seq<File>)
    requires PrefixInv(g, s, all) && DistinctNames(all) && Enabled(g, s, a)
    ensures Next(g, s, a).db.schema <= all
  {
    var p := s.starters[a.c];
    if a.Commit? && p.files[p.i].name !in s.db.records {
      assert Carries(p, all) && PcOk(g, s.db, p);
      assert forall j | 0 <= j <= p.i :: all[j] == p.files[j];
      CommitIsNext(g, s.db, all, p.i);
    }
  }

  lemma StepKeepsPrefix(g: Setting, s: State, a: Action, all: seq<File>)
    requires PrefixInv(g, s, all) && DistinctNames(all) && Enabled(g, s, a) && (a.Start? ==> a.files <= all)
    ensures PrefixInv(g, Next(g, s, a), all)
  {
    StepKeepsInv(g, s, a);
    CommitKeepsPrefix(g, s, a, all);
    var t := Next(g, s, a);
    forall c | 0 <= c < |t.starters| ensures Carries(t.starters[c], all) {
      assert Carries(s.starters[c], all);
    }
  }

  /** With append-only releases the schema is at every moment the effect of a prefix of
      the list in its own order, whatever starts, crashes and interleaves. */
  lemma {:induction false} SchemaIsAPrefix(g: Setting, s: State, acts: seq<Action>, all: seq<File>)
    requires PrefixInv(g, s, all) && DistinctNames(all) && Legal(g, s, acts) && AppendOnly(all, acts)
    ensures PrefixInv(g, After(g, s, acts), all)
    decreases |acts|
  {
    if acts != [] {
      assert acts[0] in acts;
      StepKeepsPrefix(g, s, acts[0], all);
      assert forall a <- acts[1..] :: a in acts;
      SchemaIsAPrefix(g, Next(g, s, acts[0]), acts[1..], all);
    }
  }

  // ---- The lock keeps starters from tripping over each other ------------------------------

  /** The lock is held exactly by the one active starter, which sees no change between its
      look and its write. */
  ghost predicate LockInv(s: State) {
    && (forall c | 0 <= c < |s.starters| :: c in s.lock <==> Active(s.starters[c]))
    && (forall c, d | c in s.lock && d in s.lock :: c == d)
    && forall c | 0 <= c < |s.starters| :: Alone(s.db, s.starters[c])
  }

  predicate Alone(db: Db, p: Pc) {
    match p
    case Creating(_) => db.table.Missing?
    case InTx(files, i) => i < |files| ==> files[i].name !in db.records
    case Finished(_, o) => !o.Conflict?
    case Ended(_, o) => !o.Conflict?
    case _ => true
  }

  lemma StepKeepsLock(g: Setting, s: State, a: Action)
    requires g.locked && LockInv(s) && Enabled(g, s, a)
    ensures LockInv(Next(g, s, a))
  {
    var t := Next(g, s, a);
    assert Alone(s.db, s.starters[a.c]);
    forall c | 0 <= c < |t.starters| ensures c in t.lock <==> Active(t.starters[c]) {
      assert c in s.lock <==> Active(s.starters[c]);
    }
    forall c | 0 <= c < |t.starters| ensures Alone(t.db, t.starters[c]) {
      assert Alone(s.db, s.starters[c]);
      assert t.db != s.db ==> a.c in s.lock;
    }
  }

  lemma {:induction false} RunsKeepLock(g: Setting, s: State, acts: seq<Action>)
    requires g.locked && LockInv(s) && Legal(g, s, acts)
    ensures LockInv(After(g, s, acts))
    decreases |acts|
  {
    if acts != [] {
      StepKeepsLock(g, s, acts[0]);
      RunsKeepLock(g, Next(g, s, acts[0]), acts[1..]);
    }
  }

  ghost predicate NoConflict(s: State) {
    forall c | 0 <= c < |s.starters| ::
      !((s.starters[c].Finished? || s.starters[c].Ended?) && s.starters[c].outcome.Conflict?)
  }

  ghost predicate NeverConflicts(locked: bool) {
    forall md5, n, table: Table, acts | !table.Current? && Legal(Setting(locked, md5), Init(n, table), acts) ::
      NoConflict(After(Setting(locked, md5), Init(n, table), acts))
  }

  /** Two starters both find no table; the slower one fails to create it. */
  lemma UnlockedStartersCollide(md5: string -> string)
    ensures var g, s := Setting(false, md5), Init(2, Missing);
      exists acts :: Legal(g, s, acts) && !NoConflict(After(g, s, acts))
  {
    var g := Setting(false, md5);
    var s0 := Init(2, Missing);
    var s1 := Next(g, s0, Start(0, []));
    var s2 := Next(g, s1, Start(1, []));
    var s3 := Next(g, s2, Lock(0));
    var s4 := Next(g, s3, Lock(1));
    var s5 := Next(g, s4, Probe(0));
    var s6 := Next(g, s5, Probe(1));
    var s7 := Next(g, s6, CreateTable(0));
    var s8 := Next(g, s7, CreateTable(1));
    assert s8.starters[1] == Finished([], Conflict);
    var acts := [];
    acts := Before(g, s7, s8, CreateTable(1), acts);
    acts := Before(g, s6, s8, CreateTable(0), acts);
    acts := Before(g, s5, s8, Probe(1), acts);
    acts := Before(g, s4, s8, Probe(0), acts);
    acts := Before(g, s3, s8, Lock(1), acts);
    acts := Before(g, s2, s8, Lock(0), acts);
    acts := Before(g, s1, s8, Start(1, []), acts);
    acts := Before(g, s0, s8, Start(0, []), acts);
  }

  lemma Before(g: Setting, s: State, end: State, a: Action, acts: seq<Action>) returns (all: seq<Action>)
    requires Enabled(g, s, a) && Legal(g, Next(g, s, a), acts) && After(g, Next(g, s, a), acts) == end
    ensures Legal(g, s, all) && After(g, s, all) == end
  {
    all := [a] + acts;
    assert all[1..] == acts;
  }

  /** No start fails because of another one exactly when starters take the lock. */
  lemma LockedExactlyWhenNeeded(locked: bool)
    ensures NeverConflicts(locked) <==> locked
  {
    if locked {
      forall md5, n, table: Table, acts | !table.Current? && Legal(Setting(locked, md5), Init(n, table), acts)
        ensures NoConflict(After(Setting(locked, md5), Init(n, table), acts))
      {
        RunsKeepLock(Setting(locked, md5), Init(n, table), acts);
        var s := After(Setting(locked, md5), Init(n, table), acts);
        assert forall c | 0 <= c < |s.starters| :: Alone(s.db, s.starters[c]);
      }
    } else {
      UnlockedStartersCollide(x => x);
    }
  }

  // ---- What a start that is left alone answers --------------------------------------------

  predicate Rewritten(g: Setting, db: Db, f: File) {
    f.name in db.records && db.records[f.name] != g.md5(f.body)
  }

  /** The answer the database at the lock calls for: the old shape, the first file edited
      since it was applied, or success. */
  ghost predicate Foretold(g: Setting, was: Db, files: seq<File>, o: Outcome) {
    match o
    case LegacySchema => was.table == Legacy
    case Applied => was.table != Legacy && forall j | 0 <= j < |files| :: !Rewritten(g, was, files[j])
    case Edited(i) =>
      && was.table != Legacy && i < |files| && Rewritten(g, was, files[i])
      && forall j | 0 <= j < i :: !Rewritten(g, was, files[j])
    case _ => false
  }

  /** The files from `n` on are recorded only if they were before. */
  predicate Untouched(was: Db, db: Db, files: seq<File>, n: nat) {
    forall j | n <= j < |files| :: files[j].name in db.records <==> files[j].name in was.records
  }

  /** The starter has come to file `i` without meeting an edited one, and the rest is as it was. */
  ghost predicate CameTo(g: Setting, was: Db, db: Db, files: seq<File>, i: nat) {
    && was.table != Legacy && i <= |files|
    && (forall j | 0 <= j < i :: !Rewritten(g, was, files[j]))
    && Untouched(was, db, files, i)
    && (forall name <- was.records :: name in db.records && db.records[name] == was.records[name])
  }

  ghost predicate OnCourse(g: Setting, was: Db, files: seq<File>, db: Db, p: Pc) {
    match p
    case Probing(fs) => fs == files && db == was
    case Creating(fs) => fs == files && db == was && was.table == Missing
    case Checking(fs, i) => fs == files && CameTo(g, was, db, files, i)
    case InTx(fs, i) => fs == files && i < |files| && CameTo(g, was, db, files, i)
    case Finished(fs, o) => fs == files && Foretold(g, was, files, o)
    case Ended(fs, o) => fs == files && Foretold(g, was, files, o)
    case _ => false
  }

  /** Nothing stops the starter from outside. */
  predicate Spares(a: Action, c: nat) {
    a != Crash(c) && a != Fail(c) && !(a.Start? && a.c == c)
  }

  lemma OwnStepStaysOnCourse(g: Setting, was: Db, files: seq<File>, s: State, a: Action)
    requires DistinctNames(files) && LockInv(s) && Enabled(g, s, a) && Spares(a, a.c)
    requires OnCourse(g, was, files, s.db, s.starters[a.c])
    ensures OnCourse(g, was, files, Next(g, s, a).db, Next(g, s, a).starters[a.c])
  {
    assert Alone(s.db, s.starters[a.c]);
  }

  /** While a starter holds the lock no other one writes. */
  lemma OthersDoNotWrite(g: Setting, s: State, a: Action, c: nat)
    requires g.locked && LockInv(s) && Enabled(g, s, a) && c < |s.starters| && a.c != c
    ensures Next(g, s, a).starters[c] == s.starters[c]
    ensures Active(s.starters[c]) ==> Next(g, s, a).db == s.db
  {
    assert c in s.lock && a.c in s.lock ==> a.c == c;
  }

  /** From the lock on, a starter that neither crashes nor meets an error of the server gives
      the answer its database called for, whatever the other starters do. */
  lemma {:induction false} AnswerIsForetold(g: Setting, was: Db, files: seq<File>, s: State, acts: seq<Action>, c: nat)
    requires g.locked && DistinctNames(files) && LockInv(s) && c < |s.starters|
    requires OnCourse(g, was, files, s.db, s.starters[c])
    requires Legal(g, s, acts) && forall a <- acts :: Spares(a, c)
    ensures var t := After(g, s, acts); c < |t.starters| && OnCourse(g, was, files, t.db, t.starters[c])
    decreases |acts|
  {
    if acts != [] {
      assert acts[0] in acts && forall a <- acts[1..] :: a in acts;
      StepKeepsLock(g, s, acts[0]);
      if acts[0].c == c {
        OwnStepStaysOnCourse(g, was, files, s, acts[0]);
      } else {
        OthersDoNotWrite(g, s, acts[0], c);
      }
      AnswerIsForetold(g, was, files, Next(g, s, acts[0]), acts[1..], c);
    }
  }

  /** Steps a starter still has before it. */
  function Left(p: Pc): nat {
    match p
    case Probing(files) => 2 * |files| + 4
    case Creating(files) => 2 * |files| + 3
    case Checking(files, i) => if i <= |files| then 2 * (|files| - i) + 2 else 2
    case InTx(files, i) => if i < |files| then 2 * (|files| - i) + 1 else 2
    case Finished(_, _) => 1
    case _ => 0
  }

  function OwnSteps(acts: seq<Action>, c: nat): nat {
    if acts == [] then 0 else (if acts[0].c == c then 1 else 0) + OwnSteps(acts[1..], c)
  }

  lemma OwnStepUsesUp(g: Setting, was: Db, files: seq<File>, s: State, a: Action)
    requires Enabled(g, s, a) && Spares(a, a.c) && OnCourse(g, was, files, s.db, s.starters[a.c])
    ensures Left(Next(g, s, a).starters[a.c]) < Left(s.starters[a.c])
  {
  }

  lemma {:induction false} StarterEnds(g: Setting, was: Db, files: seq<File>, s: State, acts: seq<Action>, c: nat)
    requires g.locked && DistinctNames(files) && LockInv(s) && c < |s.starters|
    requires OnCourse(g, was, files, s.db, s.starters[c])
    requires Legal(g, s, acts) && forall a <- acts :: Spares(a, c)
    ensures c < |After(g, s, acts).starters|
    ensures OwnSteps(acts, c) + Left(After(g, s, acts).starters[c]) <= Left(s.starters[c])
    decreases |acts|
  {
    if acts != [] {
      assert acts[0] in acts && forall a <- acts[1..] :: a in acts;
      StepKeepsLock(g, s, acts[0]);
      if acts[0].c == c {
        OwnStepStaysOnCourse(g, was, files, s, acts[0]);
        OwnStepUsesUp(g, was, files, s, acts[0]);
      } else {
        OthersDoNotWrite(g, s, acts[0], c);
      }
      StarterEnds(g, was, files, Next(g, s, acts[0]), acts[1..], c);
    }
  }

  /** A starter on course that has not ended can move on by itself. */
  lemma CanMoveOn(g: Setting, was: Db, files: seq<File>, s: State, c: nat)
    requires c < |s.starters| && OnCourse(g, was, files, s.db, s.starters[c])
    ensures s.starters[c].Ended? || exists a: Action :: Enabled(g, s, a) && a.c == c && Spares(a, c)
  {
    var a := match s.starters[c]
      case Probing(_) => Probe(c)
      case Creating(_) => CreateTable(c)
      case Checking(_, _) => Check(c)
      case InTx(_, _) => Commit(c)
      case _ => Unlock(c);
    assert s.starters[c].Ended? || Enabled(g, s, a);
  }

  /** A starter that takes the lock, is left alone and stops having steps has ended: `Applied`
      exactly when no file it carries was edited and the table is not of the old shape. */
  lemma LeftAloneStartSucceeds(g: Setting, s: State, acts: seq<Action>, c: nat)
    requires g.locked && LockInv(s) && Enabled(g, s, Lock(c)) && DistinctNames(s.starters[c].files)
    requires Legal(g, Next(g, s, Lock(c)), acts) && forall a <- acts :: Spares(a, c)
    ensures var t, files := After(g, Next(g, s, Lock(c)), acts), s.starters[c].files;
      && c < |t.starters| && OwnSteps(acts, c) <= 2 * |files| + 4
      && (t.starters[c].Ended? || exists a: Action :: Enabled(g, t, a) && a.c == c && Spares(a, c))
      && (t.starters[c].Ended? ==>
            && Foretold(g, s.db, files, t.starters[c].outcome)
            && (t.starters[c].outcome == Applied <==>
                s.db.table != Legacy && forall j | 0 <= j < |files| :: !Rewritten(g, s.db, files[j])))
  {
    var u, files := Next(g, s, Lock(c)), s.starters[c].files;
    StepKeepsLock(g, s, Lock(c));
    AnswerIsForetold(g, s.db, files, u, acts, c);
    StarterEnds(g, s.db, files, u, acts, c);
    CanMoveOn(g, s.db, files, After(g, u, acts), c);
  }

  // ---- One run --------------------------------------------------------------------------

  /** The files of a list not yet recorded. */
  function Pending(records: map<string, string>, files: seq<File>): seq<File> {
    if files == [] then []
    else
      var n := |files| - 1;
      Pending(records, files[..n]) + if files[n].name in records then [] else [files[n]]
  }

  lemma {:induction false} NothingPending(g: Setting, db: Db, files: seq<File>)
    requires MatchesTo(g, db, files, |files|)
    ensures Pending(db.records, files) == []
  {
    if files != [] {
      NothingPending(g, db, files[..|files| - 1]);
    }
  }

  /** The run has dealt with the first `n` files and with nothing else. */
  ghost predicate Upto(g: Setting, was: Db, db: Db, files: seq<File>, n: nat) {
    && n <= |files|
    && Faithful(g, db)
    && Grows(was, db)
    && MatchesTo(g, db, files, n)
    && Untouched(was, db, files, n)
    && db.schema == was.schema + Pending(was.records, files[..n])
  }

  lemma PendingGrows(was: Db, files: seq<File>, n: nat)
    requires n < |files|
    ensures Pending(was.records, files[..n + 1])
            == Pending(was.records, files[..n]) + if files[n].name in was.records then [] else [files[n]]
  {
    assert files[..n + 1][..n] == files[..n];
  }

  lemma RecordGoesOn(g: Setting, was: Db, db: Db, files: seq<File>, n: nat)
    requires n < |files| && DistinctNames(files) && files[n].name !in db.records
    requires MatchesTo(g, db, files, n) && Untouched(was, db, files, n) && Grows(was, db)
    ensures var r := Record(g, db, files[n]);
      MatchesTo(g, r, files, n + 1) && Untouched(was, r, files, n + 1) && Grows(was, r)
  {
  }

  lemma SkipsApplied(g: Setting, was: Db, db: Db, files: seq<File>, n: nat)
    requires Upto(g, was, db, files, n) && n < |files| && Matches(g, db, files[n])
    ensures Upto(g, was, db, files, n + 1)
  {
    PendingGrows(was, files, n);
  }

  lemma AppliesPending(g: Setting, was: Db, db: Db, files: seq<File>, n: nat)
    requires Upto(g, was, db, files, n) && n < |files| && DistinctNames(files)
    requires db.table.Current? && files[n].name !in db.records
    ensures Upto(g, was, Record(g, db, files[n]), files, n + 1)
  {
    PendingGrows(was, files, n);
    RecordIsFaithful(g, db, files[n]);
    RecordGoesOn(g, was, db, files, n);
  }

  /** Why a run ends at file `n`. */
  predicate StopsAt(g: Setting, db: Db, files: seq<File>, n: nat, broken: set<string>, r: Outcome) {
    match r
    case LegacySchema => n == 0 && db.table.Legacy?
    case Applied => n == |files|
    case Edited(i) => i == n && EditedAt(g, db, files, n)
    case Aborted => n < |files| && files[n].name in broken && files[n].name !in db.records
    case Conflict => false
  }

  class Client {
    var db: Db

    constructor (db: Db)
      ensures this.db == db
    {
      this.db := db;
    }

    /** One file: skip it, apply and record it, or stop. */
    method ApplyOne(g: Setting, ghost was: Db, files: seq<File>, n: nat, broken: set<string>) returns (stop: Outcome)
      requires n < |files| && DistinctNames(files) && db.table.Current? && Upto(g, was, db, files, n)
      modifies this
      ensures stop == Applied ==> db.table.Current? && Upto(g, was, db, files, n + 1)
      ensures stop != Applied ==> db == old(db) && StopsAt(g, db, files, n, broken, stop)
    {
      var f := files[n];
      if f.name in db.records {
        if db.records[f.name] != g.md5(f.body) {
          return Edited(n);
        }
        SkipsApplied(g, was, db, files, n);
      } else {
        if f.name in broken {
          return Aborted;
        }
        AppliesPending(g, was, db, files, n);
        db := Record(g, db, f);
      }
      stop := Applied;
    }

    /** The loop on one held connection; `broken` names the scripts the server rejects. It
        applies the pending files in order up to where it stops, and an edited file stops it
        before that file and every later one. */
    method RunMigrationsOn(g: Setting, files: seq<File>, broken: set<string>) returns (r: Outcome, n: nat)
      requires Faithful(g, db) && DistinctNames(files)
      modifies this
      ensures Upto(g, old(db), db, files, n) && StopsAt(g, db, files, n, broken, r)
      ensures r == LegacySchema <==> old(db.table) == Legacy
    {
      n := 0;
      if db.table == Legacy {
        return LegacySchema, 0;
      }
      db := db.(table := Current);
      while n < |files|
        invariant n <= |files| && db.table.Current? && Upto(g, old(db), db, files, n)
      {
        r := ApplyOne(g, old(db), files, n, broken);
        if r != Applied {
          return;
        }
        n := n + 1;
      }
      r := Applied;
    }
  }

  /** Starting again after success succeeds and changes nothing, whatever scripts the
      server would reject. */
  lemma RerunIsIdle(g: Setting, was: Db, db: Db, again: Db, files: seq<File>, broken: set<string>, r: Outcome, n: nat)
    requires Upto(g, was, db, files, |files|) && db.table.Current?
    requires Upto(g, db, again, files, n) && StopsAt(g, again, files, n, broken, r)
    ensures r == Applied && again.schema == db.schema && again.records == db.records
  {
    RerunApplies(g, db, again, files, broken, r, n);
    assert files[..n] == files;
    NothingPending(g, db, files);
    SameRecords(g, db, again);
  }

  lemma RerunApplies(g: Setting, db: Db, again: Db, files: seq<File>, broken: set<string>, r: Outcome, n: nat)
    requires MatchesTo(g, db, files, |files|) && Grows(db, again) && db.table.Current?
    requires StopsAt(g, again, files, n, broken, r)
    ensures r == Applied && n == |files|
  {
    assert n < |files| ==> Matches(g, db, files[n]);
  }

  /** Faithful databases with one schema have the same records. */
  lemma SameRecords(g: Setting, a: Db, b: Db)
    requires Faithful(g, a) && Faithful(g, b) && Grows(a, b) && a.schema == b.schema
    ensures a.records == b.records
  {
    forall name <- b.records ensures name in a.records {
      var f :| f in b.schema && f.name == name;
      assert Matches(g, a, f);
    }
  }
}
