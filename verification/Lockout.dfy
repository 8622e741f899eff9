/** The per-address lockout after failed logins (`src/access/lockout.rs`): a bounded map of
    failure counts against the plain history of failures and successes. */
module Lockout {
  import opened Wrappers

  const MAX_FAILURES := 5
  /** Fifteen minutes, in nanoseconds. */
  const WINDOW := 900_000_000_000
  const MAX_TRACKED := 10_000

  type IpAddr = nat

  datatype Entry = Entry(count: nat, first: nat)

  type Tracked = map<IpAddr, Entry>

  predicate Live(e: Entry, now: nat) {
    now - e.first < WINDOW
  }

  function Lookup(m: Tracked, ip: IpAddr): Option<Entry> {
    if ip in m then Some(m[ip]) else None
  }

  function Remaining(entry: Option<Entry>, now: nat): Option<int> {
    if entry.Some? && entry.value.count >= MAX_FAILURES && Live(entry.value, now)
    then Some(WINDOW - (now - entry.value.first)) else None
  }

  /** What happened: `victim` is the address evicted by a failure that found the map full. */
  datatype Event =
    | Failure(ip: IpAddr, at: nat, victim: Option<IpAddr>)
    | Success(ip: IpAddr, at: nat)

  predicate Counting(m: Tracked, ip: IpAddr, now: nat) {
    ip in m && Live(m[ip], now)
  }

  predicate Oldest(m: Tracked, v: IpAddr) {
    v in m && forall k <- m :: m[v].first <= m[k].first
  }

  /** A failure outside a live window evicts exactly when the map is full, and then an
      entry no younger than any other. */
  predicate Admissible(m: Tracked, e: Event) {
    e.Failure? ==>
      && (e.victim.Some? <==> !Counting(m, e.ip, e.at) && |m| >= MAX_TRACKED)
      && (e.victim.Some? ==> Oldest(m, e.victim.value))
  }

  function Step(m: Tracked, e: Event): Tracked {
    match e
    case Success(ip, _) => m - {ip}
    case Failure(ip, at, victim) =>
      if Counting(m, ip, at) then m[ip := Entry(m[ip].count + 1, m[ip].first)]
      else (if victim.Some? then m - {victim.value} else m)[ip := Entry(1, at)]
  }

  function Replay(h: seq<Event>): Tracked {
    if h == [] then map[] else Step(Replay(h[..|h| - 1]), h[|h| - 1])
  }

  predicate InOrder(h: seq<Event>) {
    forall i, j | 0 <= i < j < |h| :: h[i].at <= h[j].at
  }

  ghost predicate Legal(h: seq<Event>) {
    && InOrder(h)
    && (h != [] ==> Legal(h[..|h| - 1]) && Admissible(Replay(h[..|h| - 1]), h[|h| - 1]))
  }

  predicate Since(h: seq<Event>, now: nat) {
    h == [] || h[|h| - 1].at <= now
  }

  lemma LegalAppends(h: seq<Event>, e: Event)
    requires Legal(h) && Since(h, e.at) && Admissible(Replay(h), e)
    ensures Legal(h + [e]) && Replay(h + [e]) == Step(Replay(h), e)
  {
    assert (h + [e])[..|h|] == h;
  }

  // ---- What the history says --------------------------------------------------------------

  predicate Fails(e: Event, ip: IpAddr) {
    e.Failure? && e.ip == ip
  }

  /** No success of `ip` among the events `i..j`. */
  predicate Quiet(h: seq<Event>, ip: IpAddr, i: nat, j: nat)
    requires i <= j <= |h|
  {
    forall k | i <= k < j :: !(h[k].Success? && h[k].ip == ip)
  }

  /** Event `i` is the first failure of a window: every earlier window of `ip` was ended
      by a success or was over by then. */
  ghost predicate Opens(h: seq<Event>, ip: IpAddr, i: nat)
    requires i < |h|
    decreases i
  {
    && Fails(h[i], ip)
    && forall j | 0 <= j < i :: Opens(h, ip, j) && Quiet(h, ip, j, i) ==> h[i].at - h[j].at >= WINDOW
  }

  /** The failures of `ip` from event `i` on. */
  function Failures(h: seq<Event>, ip: IpAddr, i: nat): nat
    decreases |h|
  {
    if |h| <= i then 0
    else Failures(h[..|h| - 1], ip, i) + if Fails(h[|h| - 1], ip) then 1 else 0
  }

  /** The window opened by event `i` locks `ip` out at `now`. */
  ghost predicate Locks(h: seq<Event>, ip: IpAddr, now: nat, i: nat) {
    && i < |h|
    && Opens(h, ip, i)
    && Quiet(h, ip, i, |h|)
    && now - h[i].at < WINDOW
    && Failures(h, ip, i) >= MAX_FAILURES
  }

  /** `r` is what the history says about `ip` at `now`. */
  ghost predicate Answers(h: seq<Event>, ip: IpAddr, now: nat, r: Option<int>) {
    && (r.Some? <==> exists i: nat :: Locks(h, ip, now, i))
    && forall i: nat | Locks(h, ip, now, i) :: r == Some(WINDOW - (now - h[i].at))
  }

  // ---- An unbounded map agrees with the history -------------------------------------------

  /** The entry of `ip` if nothing were ever evicted. */
  function Window(h: seq<Event>, ip: IpAddr): Option<Entry> {
    if h == [] then None
    else
      WindowAfter(Window(h[..|h| - 1], ip), h[|h| - 1], ip)
  }

  function WindowAfter(w: Option<Entry>, e: Event, ip: IpAddr): Option<Entry> {
    if e.ip != ip then w
    else if e.Success? then None
    else if w.Some? && Live(w.value, e.at) then Some(Entry(w.value.count + 1, w.value.first))
    else Some(Entry(1, e.at))
  }

  lemma {:induction false} OpensLocally(h: seq<Event>, ip: IpAddr, i: nat)
    requires i < |h| - 1
    ensures Opens(h, ip, i) <==> Opens(h[..|h| - 1], ip, i)
    decreases i
  {
    var g := h[..|h| - 1];
    forall j | 0 <= j < i
      ensures Opens(h, ip, j) <==> Opens(g, ip, j)
      ensures Quiet(h, ip, j, i) <==> Quiet(g, ip, j, i)
    {
      OpensLocally(h, ip, j);
      assert forall k | j <= k < i :: h[k] == g[k];
    }
  }

  /** Event `i` opened the window in force at the end of `h`. */
  ghost predicate Current(h: seq<Event>, ip: IpAddr, i: nat) {
    && i < |h|
    && Opens(h, ip, i)
    && Quiet(h, ip, i, |h|)
    && forall j | i < j < |h| :: !Opens(h, ip, j)
  }

  ghost predicate Unopened(h: seq<Event>, ip: IpAddr) {
    forall i | 0 <= i < |h| :: Opens(h, ip, i) ==> !Quiet(h, ip, i, |h|)
  }

  ghost predicate Describes(h: seq<Event>, ip: IpAddr, w: Option<Entry>, i: nat) {
    if w.None? then Unopened(h, ip)
    else Current(h, ip, i) && w.value == Entry(Failures(h, ip, i), h[i].at)
  }

  lemma QuietExtends(h: seq<Event>, ip: IpAddr, i: nat)
    requires i < |h| && Quiet(h[..|h| - 1], ip, i, |h| - 1)
    requires h[|h| - 1].ip != ip || h[|h| - 1].Failure?
    ensures Quiet(h, ip, i, |h|)
  {
    var g := h[..|h| - 1];
    assert forall k | i <= k < |g| :: h[k] == g[k];
  }

  /** An event of another address, or a failure inside the window, keeps the window. */
  lemma CurrentStays(h: seq<Event>, ip: IpAddr, i: nat)
    requires h != [] && Current(h[..|h| - 1], ip, i) && !Opens(h, ip, |h| - 1)
    requires h[|h| - 1].ip != ip || h[|h| - 1].Failure?
    ensures Current(h, ip, i)
  {
    OpensLocally(h, ip, i);
    forall j | i < j < |h| ensures !Opens(h, ip, j) {
      if j < |h| - 1 {
        OpensLocally(h, ip, j);
      }
    }
    QuietExtends(h, ip, i);
  }

  lemma UnopenedStays(h: seq<Event>, ip: IpAddr)
    requires h != [] && h[|h| - 1].ip != ip && Unopened(h[..|h| - 1], ip)
    ensures Unopened(h, ip)
  {
    var g := h[..|h| - 1];
    forall i | 0 <= i < |h| && Opens(h, ip, i) ensures !Quiet(h, ip, i, |h|) {
      OpensLocally(h, ip, i);
      var k :| i <= k < |g| && g[k].Success? && g[k].ip == ip;
      assert h[k] == g[k];
    }
  }

  /** A failure that finds no live window opens one. */
  lemma FailureOpens(h: seq<Event>, ip: IpAddr, w: Option<Entry>, i: nat)
    requires h != [] && InOrder(h) && Fails(h[|h| - 1], ip) && Describes(h[..|h| - 1], ip, w, i)
    requires w.Some? ==> !Live(w.value, h[|h| - 1].at)
    ensures Opens(h, ip, |h| - 1)
  {
    var n := |h| - 1;
    var g := h[..n];
    forall j | 0 <= j < n && Opens(h, ip, j) && Quiet(h, ip, j, n)
      ensures h[n].at - h[j].at >= WINDOW
    {
      OpensLocally(h, ip, j);
      assert forall k | j <= k < n :: h[k] == g[k];
      assert Quiet(g, ip, j, n);
      assert w.Some? && j <= i;
      if j < i {
        assert Quiet(g, ip, j, i);
        assert g[i].at - g[j].at >= WINDOW;
      }
    }
  }

  lemma {:induction false} WindowDescribes(h: seq<Event>, ip: IpAddr) returns (i: nat)
    requires InOrder(h)
    ensures Describes(h, ip, Window(h, ip), i)
  {
    i := 0;
    if h != [] {
      var n := |h| - 1;
      var g, e := h[..n], h[n];
      i := WindowDescribes(g, ip);
      var w := Window(g, ip);
      if e.ip != ip {
        if w.Some? {
          CurrentStays(h, ip, i);
        } else {
          UnopenedStays(h, ip);
        }
      } else if e.Failure? {
        if w.Some? && Live(w.value, e.at) {
          OpensLocally(h, ip, i);
          assert forall k | i <= k < n :: h[k] == g[k];
          assert Quiet(h, ip, i, n);
          CurrentStays(h, ip, i);
        } else {
          FailureOpens(h, ip, w, i);
          i := n;
          assert Failures(g, ip, n) == 0;
        }
      } else {
        forall j | 0 <= j < |h| ensures !Quiet(h, ip, j, |h|) {
          assert h[n].Success? && h[n].ip == ip;
        }
      }
    }
  }

  /** At any time from the last event on, only the current window can lock. */
  lemma OnlyCurrentLocks(h: seq<Event>, ip: IpAddr, w: Option<Entry>, i: nat, now: nat, j: nat)
    requires InOrder(h) && Since(h, now) && Describes(h, ip, w, i) && Locks(h, ip, now, j)
    ensures w.Some? && j == i
  {
    assert w.Some? && j <= i;
    assert j < i ==> Quiet(h, ip, j, i);
    assert h[i].at <= h[|h| - 1].at;
  }

  lemma WindowIsHistory(h: seq<Event>, ip: IpAddr, now: nat)
    requires InOrder(h) && Since(h, now)
    ensures Answers(h, ip, now, Remaining(Window(h, ip), now))
  {
    var w := Window(h, ip);
    var c := WindowDescribes(h, ip);
    if Remaining(w, now).Some? {
      assert Locks(h, ip, now, c);
    }
    forall i: nat | Locks(h, ip, now, i) ensures Remaining(w, now) == Some(WINDOW - (now - h[i].at)) {
      OnlyCurrentLocks(h, ip, w, c, now, i);
    }
  }

  // ---- The bounded map --------------------------------------------------------------------

  predicate Dead(o: Option<Entry>, now: nat) {
    o.None? || !Live(o.value, now)
  }

  /** Two entries nobody can tell apart from `now` on. */
  predicate Same(a: Option<Entry>, b: Option<Entry>, now: nat) {
    a == b || (Dead(a, now) && Dead(b, now))
  }

  /** Event `i` evicted `ip` while its window was live. */
  ghost predicate Lost(h: seq<Event>, ip: IpAddr, i: nat)
    requires i < |h|
  {
    h[i].Failure? && h[i].victim == Some(ip) && Counting(Replay(h[..i]), ip, h[i].at)
  }

  ghost predicate NeverLost(h: seq<Event>, ip: IpAddr) {
    forall i | 0 <= i < |h| :: !Lost(h, ip, i)
  }

  lemma NeverLostBefore(h: seq<Event>, ip: IpAddr)
    requires h != [] && NeverLost(h, ip)
    ensures NeverLost(h[..|h| - 1], ip)
  {
    var g := h[..|h| - 1];
    forall i | 0 <= i < |g| ensures !Lost(g, ip, i) {
      assert g[..i] == h[..i];
      assert !Lost(h, ip, i);
    }
  }

  lemma StepFollows(m: Tracked, e: Event, ip: IpAddr, w: Option<Entry>, now: nat)
    requires Same(Lookup(m, ip), w, e.at) && e.at <= now
    requires e.Failure? && e.victim == Some(ip) ==> !Counting(m, ip, e.at)
    requires Admissible(m, e)
    ensures Same(Lookup(Step(m, e), ip), WindowAfter(w, e, ip), now)
  {
  }

  lemma {:induction false} MapFollowsWindow(h: seq<Event>, ip: IpAddr, now: nat)
    requires Legal(h) && NeverLost(h, ip) && Since(h, now)
    ensures Same(Lookup(Replay(h), ip), Window(h, ip), now)
  {
    if h != [] {
      var n := |h| - 1;
      NeverLostBefore(h, ip);
      assert n > 0 ==> h[n - 1].at <= h[n].at;
      MapFollowsWindow(h[..n], ip, h[n].at);
      assert !Lost(h, ip, n);
      StepFollows(Replay(h[..n]), h[n], ip, Window(h[..n], ip), now);
    }
  }

  /** For an address never evicted during a live window, the map answers at every time
      exactly what the history says, remaining seconds included. */
  lemma LockoutIsHistory(h: seq<Event>, ip: IpAddr, now: nat)
    requires Legal(h) && NeverLost(h, ip) && Since(h, now)
    ensures Answers(h, ip, now, Remaining(Lookup(Replay(h), ip), now))
  {
    MapFollowsWindow(h, ip, now);
    WindowIsHistory(h, ip, now);
  }

  /** Losing a locked address does change the answer, so the condition cannot be dropped. */
  lemma LosingUnlocks(h: seq<Event>, ip: IpAddr, i: nat)
    requires Legal(h) && h != [] && Lost(h, ip, |h| - 1) && Locks(h[..|h| - 1], ip, h[|h| - 1].at, i)
    ensures Locks(h, ip, h[|h| - 1].at, i) && Remaining(Lookup(Replay(h), ip), h[|h| - 1].at).None?
  {
    var g, e := h[..|h| - 1], h[|h| - 1];
    assert e.ip != ip && ip !in Step(Replay(g), e);
    LocksThrough(h, ip, e.at, i);
  }

  /** An event of another address leaves a lock in place. */
  lemma LocksThrough(h: seq<Event>, ip: IpAddr, now: nat, i: nat)
    requires h != [] && h[|h| - 1].ip != ip && Locks(h[..|h| - 1], ip, now, i)
    ensures Locks(h, ip, now, i)
  {
    OpensLocally(h, ip, i);
    QuietExtends(h, ip, i);
  }

  // ---- Exactly when the map can go wrong ----------------------------------------------------

  /** None of the events from `n` on evicts `ip` during a live window. */
  ghost predicate KeptSince(h: seq<Event>, ip: IpAddr, n: nat) {
    forall i | n <= i < |h| :: !Lost(h, ip, i)
  }

  /** After `ext`, which does not lose `ip`, the map answers wrongly at `now`. */
  ghost predicate WrongAfter(h: seq<Event>, ip: IpAddr, ext: seq<Event>, now: nat) {
    && Legal(h + ext) && KeptSince(h + ext, ip, |h|) && Since(h + ext, now)
    && !Answers(h + ext, ip, now, Remaining(Lookup(Replay(h + ext), ip), now))
  }

  ghost predicate CanGoWrong(h: seq<Event>, ip: IpAddr) {
    exists ext, now :: WrongAfter(h, ip, ext, now)
  }

  lemma {:induction false} SomeOldest(m: Tracked) returns (v: IpAddr)
    requires m != map[]
    ensures Oldest(m, v)
    decreases |m|
  {
    v :| v in m;
    var rest := m - {v};
    if rest != map[] {
      WithoutOne(m, v);
      var w := SomeOldest(rest);
      assert forall k <- m :: k == v || k in rest;
      v := if m[w].first < m[v].first then w else v;
    } else {
      assert forall k <- m :: k == v || k in rest;
    }
  }

  lemma {:induction false} WindowsCount(h: seq<Event>, ip: IpAddr)
    ensures Window(h, ip).Some? ==> Window(h, ip).value.count >= 1
  {
    if h != [] {
      WindowsCount(h[..|h| - 1], ip);
    }
  }

  lemma KeptAppends(h: seq<Event>, ip: IpAddr, n: nat, e: Event)
    requires KeptSince(h, ip, n) && (e.Failure? && e.victim == Some(ip) ==> !Counting(Replay(h), ip, e.at))
    ensures KeptSince(h + [e], ip, n)
  {
    var g := h + [e];
    forall i | n <= i < |g| ensures !Lost(g, ip, i) {
      assert g[..i] == h[..i];
      if i < |h| {
        assert !Lost(h, ip, i);
      } else {
        assert h[..i] == h;
      }
    }
  }

  /** One more failure of `ip`, with the eviction it needs. */
  lemma FailsAgain(h: seq<Event>, ip: IpAddr, at: nat, n: nat) returns (e: Event)
    requires Legal(h) && Since(h, at) && KeptSince(h, ip, n) && (ip in Replay(h) ==> Live(Replay(h)[ip], at))
    ensures e.Failure? && e.ip == ip && e.at == at && Legal(h + [e]) && KeptSince(h + [e], ip, n)
    ensures Replay(h + [e]) == Step(Replay(h), e)
    ensures Window(h + [e], ip) == WindowAfter(Window(h, ip), e, ip)
  {
    var m := Replay(h);
    var victim: Option<IpAddr> := None;
    if ip !in m && |m| >= MAX_TRACKED {
      var v := SomeOldest(m);
      victim := Some(v);
    }
    e := Failure(ip, at, victim);
    LegalAppends(h, e);
    KeptAppends(h, ip, n, e);
    assert (h + [e])[..|h|] == h;
  }

  /** The map counts `k` failures since `at`, the history `k` on top of the window `w`. */
  predicate Tally(entry: Option<Entry>, window: Option<Entry>, at: nat, w: Entry, k: nat) {
    && entry == (if k == 0 then None else Some(Entry(k, at)))
    && window == Some(Entry(w.count + k, w.first))
  }

  lemma TallyStep(m: Tracked, e: Event, window: Option<Entry>, w: Entry, k: nat)
    requires e.Failure? && Live(w, e.at) && Tally(Lookup(m, e.ip), window, e.at, w, k)
    ensures Tally(Lookup(Step(m, e), e.ip), WindowAfter(window, e, e.ip), e.at, w, k + 1)
  {
  }

  ghost predicate Standing(g: seq<Event>, n: nat, ip: IpAddr, at: nat) {
    Legal(g) && Since(g, at) && KeptSince(g, ip, n)
  }

  /** After event `n`, `k` failures of a forgotten address at one instant. */
  ghost predicate Recounted(g: seq<Event>, n: nat, ip: IpAddr, at: nat, w: Entry, k: nat) {
    Standing(g, n, ip, at) && Tally(Lookup(Replay(g), ip), Window(g, ip), at, w, k)
  }

  lemma CountsOneMore(g: seq<Event>, n: nat, ip: IpAddr, at: nat, w: Entry, k: nat) returns (e: Event)
    requires Recounted(g, n, ip, at, w, k) && Live(w, at)
    ensures Recounted(g + [e], n, ip, at, w, k + 1)
  {
    e := FailsAgain(g, ip, at, n);
    TallyStep(Replay(g), e, Window(g, ip), w, k);
    assert Standing(g + [e], n, ip, at);
  }

  lemma CountsAnew(h: seq<Event>, ip: IpAddr, at: nat, w: Entry, k: nat) returns (ext: seq<Event>)
    requires Recounted(h, |h|, ip, at, w, 0) && Live(w, at)
    ensures Recounted(h + ext, |h|, ip, at, w, k)
  {
    var g := h;
    for i := 0 to k
      invariant h <= g && Recounted(g, |h|, ip, at, w, i)
    {
      var e := CountsOneMore(g, |h|, ip, at, w, i);
      g := g + [e];
    }
    ext := g[|h|..];
    assert h + ext == g;
  }

  /** The history locks where the map does not. */
  lemma RecountIsWrong(h: seq<Event>, ext: seq<Event>, ip: IpAddr, at: nat, w: Entry, k: nat)
    requires Recounted(h + ext, |h|, ip, at, w, k) && Live(w, at) && w.count + k >= MAX_FAILURES > k
    ensures WrongAfter(h, ip, ext, at)
  {
    WindowIsHistory(h + ext, ip, at);
  }

  /** What a loss leaves behind: nothing in the map, the live window in the history. */
  lemma LossForgets(h: seq<Event>, ip: IpAddr)
    requires h != [] && Legal(h) && NeverLost(h[..|h| - 1], ip) && Lost(h, ip, |h| - 1)
    ensures ip !in Replay(h) && Window(h, ip).Some? && Live(Window(h, ip).value, h[|h| - 1].at)
  {
    var n := |h| - 1;
    assert n > 0 ==> h[n - 1].at <= h[n].at;
    MapFollowsWindow(h[..n], ip, h[n].at);
  }

  /** The first loss of an address is exactly what lets the map go wrong later on: with any
      live entry lost, locked or not, some continuation gets a wrong answer, and without a
      loss none does. */
  lemma FirstLossExactly(h: seq<Event>, ip: IpAddr)
    requires h != [] && Legal(h) && NeverLost(h[..|h| - 1], ip)
    ensures Lost(h, ip, |h| - 1) <==> CanGoWrong(h, ip)
  {
    if Lost(h, ip, |h| - 1) {
      var at := h[|h| - 1].at;
      LossForgets(h, ip);
      WindowsCount(h, ip);
      var w := Window(h, ip).value;
      var k := if w.count >= MAX_FAILURES then 0 else MAX_FAILURES - w.count;
      var ext := CountsAnew(h, ip, at, w, k);
      RecountIsWrong(h, ext, ip, at, w, k);
    } else {
      NeverLostAppends(h, ip);
      KeptIsRight(h, ip);
    }
  }

  lemma NeverLostAppends(h: seq<Event>, ip: IpAddr)
    requires h != [] && NeverLost(h[..|h| - 1], ip) && !Lost(h, ip, |h| - 1)
    ensures NeverLost(h, ip)
  {
    var g := h[..|h| - 1];
    forall i | 0 <= i < |g| ensures !Lost(h, ip, i) {
      assert g[..i] == h[..i];
      assert !Lost(g, ip, i);
    }
  }

  lemma KeptIsRight(h: seq<Event>, ip: IpAddr)
    requires NeverLost(h, ip)
    ensures !CanGoWrong(h, ip)
  {
    forall ext, now ensures !WrongAfter(h, ip, ext, now) {
      var g := h + ext;
      if Legal(g) && KeptSince(g, ip, |h|) && Since(g, now) {
        forall i | 0 <= i < |g| ensures !Lost(g, ip, i) {
          if i < |h| {
            assert g[..i] == h[..i];
            assert !Lost(h, ip, i);
          }
        }
        LockoutIsHistory(g, ip, now);
      }
    }
  }

  /** No point of the history can lead to a wrong answer, short of a loss yet to come. */
  ghost predicate AlwaysRight(h: seq<Event>, ip: IpAddr) {
    forall n | 0 <= n <= |h| :: !CanGoWrong(h[..n], ip)
  }

  lemma AlwaysRightSplits(h: seq<Event>, ip: IpAddr)
    requires h != []
    ensures AlwaysRight(h, ip) <==> AlwaysRight(h[..|h| - 1], ip) && !CanGoWrong(h, ip)
  {
    var g := h[..|h| - 1];
    assert h[..|h|] == h;
    assert forall n | 0 <= n <= |g| :: h[..n] == g[..n];
  }

  /** Over a whole history the map stays right exactly when the address was never lost. */
  lemma {:induction false} RightExactlyWhenNeverLost(h: seq<Event>, ip: IpAddr)
    requires Legal(h)
    ensures AlwaysRight(h, ip) <==> NeverLost(h, ip)
  {
    if h == [] {
      assert h[..0] == h;
      KeptIsRight(h, ip);
    } else {
      var g := h[..|h| - 1];
      RightExactlyWhenNeverLost(g, ip);
      AlwaysRightSplits(h, ip);
      if NeverLost(g, ip) {
        FirstLossExactly(h, ip);
      }
      NeverLostSplits(h, ip);
    }
  }

  lemma NeverLostSplits(h: seq<Event>, ip: IpAddr)
    requires h != []
    ensures NeverLost(h, ip) <==> NeverLost(h[..|h| - 1], ip) && !Lost(h, ip, |h| - 1)
  {
    if NeverLost(h, ip) {
      NeverLostBefore(h, ip);
    } else if NeverLost(h[..|h| - 1], ip) && !Lost(h, ip, |h| - 1) {
      NeverLostAppends(h, ip);
    }
  }

  /** `k` failures of address 0 at once. */
  lemma {:induction false} Burst(h: seq<Event>, k: nat)
    requires h == seq(k, _ => Failure(0, 0, None)) && k <= MAX_FAILURES
    ensures Legal(h) && NeverLost(h, 0)
    ensures Replay(h) == if k == 0 then map[] else map[0 := Entry(k, 0)]
  {
    if k > 0 {
      var g := h[..k - 1];
      assert g == seq(k - 1, _ => Failure(0, 0, None));
      Burst(g, k - 1);
      assert h[k - 1] == Failure(0, 0, None);
    }
  }

  lemma QuietGrowth(h: seq<Event>, e: Event, ip: IpAddr)
    requires NeverLost(h, ip) && (e.Failure? ==> e.victim.None?)
    ensures NeverLost(h + [e], ip)
  {
    forall i | 0 <= i < |h + [e]| ensures !Lost(h + [e], ip, i) {
      if i < |h| {
        assert (h + [e])[..i] == h[..i];
        assert !Lost(h, ip, i);
      }
    }
  }

  ghost predicate Gathered(h: seq<Event>, m: Tracked) {
    Legal(h) && NeverLost(h, 0) && Since(h, 1) && Replay(h) == m
  }

  lemma OneMoreGathers(h: seq<Event>, m: Tracked, ip: IpAddr)
    requires Gathered(h, m) && ip !in m && |m| < MAX_TRACKED
    ensures Gathered(h + [Failure(ip, 1, None)], m[ip := Entry(1, 1)])
  {
    var e := Failure(ip, 1, None);
    LegalAppends(h, e);
    QuietGrowth(h, e, 0);
  }

  /** Five failures of address 0 at time 0, then one each of the addresses up to `n`. */
  lemma {:induction false} CrowdGathers(n: nat) returns (h: seq<Event>, m: Tracked)
    requires n < MAX_TRACKED
    ensures Gathered(h, m) && |m| == n + 1 && Lookup(m, 0) == Some(Entry(MAX_FAILURES, 0))
    ensures forall ip <- m :: ip <= n
    decreases n
  {
    if n == 0 {
      h, m := seq(MAX_FAILURES, _ => Failure(0, 0, None)), map[0 := Entry(MAX_FAILURES, 0)];
      Burst(h, MAX_FAILURES);
    } else {
      var g, k := CrowdGathers(n - 1);
      OneMoreGathers(g, k, n);
      h, m := g + [Failure(n, 1, None)], k[n := Entry(1, 1)];
      assert m.Keys == k.Keys + {n};
    }
  }

  /** It happens: ten thousand addresses failing within the window push out the first of
      them, which was locked out. */
  lemma ACrowdUnlocks() returns (h: seq<Event>, i: nat)
    ensures Legal(h) && h != [] && Lost(h, 0, |h| - 1) && Locks(h[..|h| - 1], 0, h[|h| - 1].at, i)
  {
    var g, m := CrowdGathers(MAX_TRACKED - 1);
    i := CrowdLocks(g, m);
    h := g + [Failure(MAX_TRACKED, 2, Some(0))];
    LegalAppends(g, h[|g|]);
    assert h[..|g|] == g;
  }

  lemma CrowdLocks(g: seq<Event>, m: Tracked) returns (i: nat)
    requires Gathered(g, m) && Lookup(m, 0) == Some(Entry(MAX_FAILURES, 0))
    ensures Locks(g, 0, 2, i)
  {
    LockoutIsHistory(g, 0, 2);
    i :| Locks(g, 0, 2, i);
  }

  // ---- Size and eviction ------------------------------------------------------------------

  lemma WithoutOne(m: Tracked, v: IpAddr)
    requires v in m
    ensures |m - {v}| == |m| - 1
  {
    assert (m - {v}).Keys == m.Keys - {v};
  }

  lemma FailureFits(m: Tracked, ip: IpAddr, at: nat, victim: Option<IpAddr>)
    requires |m| <= MAX_TRACKED && Admissible(m, Failure(ip, at, victim)) && !Counting(m, ip, at)
    ensures |Step(m, Failure(ip, at, victim))| <= MAX_TRACKED
  {
    var kept := if victim.Some? then m - {victim.value} else m;
    if victim.Some? {
      WithoutOne(m, victim.value);
    }
    assert kept[ip := Entry(1, at)].Keys == kept.Keys + {ip};
  }

  lemma StepFits(m: Tracked, e: Event)
    requires |m| <= MAX_TRACKED && Admissible(m, e)
    ensures |Step(m, e)| <= MAX_TRACKED
  {
    if e.Success? {
      assert e.ip !in m ==> m - {e.ip} == m;
      if e.ip in m {
        WithoutOne(m, e.ip);
      }
    } else if Counting(m, e.ip, e.at) {
      assert Step(m, e).Keys == m.Keys;
    } else {
      FailureFits(m, e.ip, e.at, e.victim);
    }
  }

  lemma {:induction false} MapStaysBounded(h: seq<Event>)
    requires Legal(h)
    ensures |Replay(h)| <= MAX_TRACKED
  {
    if h != [] {
      MapStaysBounded(h[..|h| - 1]);
      StepFits(Replay(h[..|h| - 1]), h[|h| - 1]);
    }
  }

  /** An address is lost only to a crowd: the map is full and every tracked address is
      inside a live window. So an expired entry is evicted whenever there is one. */
  lemma LostOnlyToACrowd(h: seq<Event>, ip: IpAddr, i: nat)
    requires i < |h| && Legal(h[..i + 1]) && Lost(h, ip, i)
    ensures var m := Replay(h[..i]); |m| >= MAX_TRACKED && forall k <- m :: Counting(m, k, h[i].at)
  {
    assert h[..i + 1][..i] == h[..i];
  }

  // ---- The tracker ------------------------------------------------------------------------

  /** The map is what the history makes of it. */
  ghost predicate Logged(m: Tracked, log: seq<Event>) {
    Legal(log) && m == Replay(log) && |m| <= MAX_TRACKED
  }

  lemma LogStep(m: Tracked, log: seq<Event>, e: Event)
    requires Logged(m, log) && Since(log, e.at) && Admissible(m, e)
    ensures Logged(Step(m, e), log + [e])
  {
    LegalAppends(log, e);
    StepFits(m, e);
  }

  lemma LoggedAnswers(m: Tracked, log: seq<Event>, ip: IpAddr, now: nat)
    requires Logged(m, log) && Since(log, now)
    ensures NeverLost(log, ip) ==> Answers(log, ip, now, Remaining(Lookup(m, ip), now))
  {
    if NeverLost(log, ip) {
      LockoutIsHistory(log, ip, now);
    }
  }

  /** `log` is the history of calls so far. */
  class LockoutTracker {
    var inner: Tracked
    ghost var log: seq<Event>

    ghost predicate Valid()
      reads this
    {
      Logged(inner, log)
    }

    constructor ()
      ensures Valid() && log == []
    {
      inner, log := map[], [];
    }

    /** The oldest entry, by a scan in any order. */
    static method FindOldest(m: Tracked) returns (v: IpAddr)
      requires m != map[]
      ensures Oldest(m, v)
    {
      var todo := m.Keys;
      v :| v in todo;
      while todo != {}
        invariant todo <= m.Keys && v in m
        invariant forall k | k in m && k !in todo :: m[v].first <= m[k].first
        decreases |todo|
      {
        var k :| k in todo;
        todo := todo - {k};
        if m[k].first < m[v].first {
          v := k;
        }
      }
    }

    method RecordFailure(ip: IpAddr, now: nat) returns (ghost victim: Option<IpAddr>)
      requires Valid() && Since(log, now)
      modifies this
      ensures Valid()
      ensures log == old(log) + [Failure(ip, now, victim)]
    {
      victim := None;
      if ip in inner && Live(inner[ip], now) {
        inner := inner[ip := Entry(inner[ip].count + 1, inner[ip].first)];
      } else {
        if |inner| >= MAX_TRACKED {
          var v := FindOldest(inner);
          victim := Some(v);
          inner := inner - {v};
        }
        inner := inner[ip := Entry(1, now)];
      }
      ghost var e := Failure(ip, now, victim);
      assert Admissible(old(inner), e) && inner == Step(old(inner), e);
      LogStep(old(inner), log, e);
      log := log + [e];
    }

    method RecordSuccess(ip: IpAddr, now: nat)
      requires Valid() && Since(log, now)
      modifies this
      ensures Valid() && log == old(log) + [Success(ip, now)]
    {
      LogStep(inner, log, Success(ip, now));
      inner := inner - {ip};
      log := log + [Success(ip, now)];
    }

    method LockoutRemaining(ip: IpAddr, now: nat) returns (r: Option<int>)
      requires Valid() && Since(log, now)
      ensures NeverLost(log, ip) ==> Answers(log, ip, now, r)
    {
      r := None;
      if ip in inner && inner[ip].count >= MAX_FAILURES && now - inner[ip].first < WINDOW {
        r := Some(WINDOW - (now - inner[ip].first));
      }
      assert r == Remaining(Lookup(inner, ip), now);
      LoggedAnswers(inner, log, ip, now);
    }
  }
}
