/** The gate in front of vector-index builds (`src/embed/auto_loop.rs`,
    `src/embed/vector_index.rs`): a compare-and-swap loop on one shared timestamp, taken
    by any number of concurrent callers, and an in-flight flag raised while a build runs. */
module BuildGate {
  const BUILD_BACKOFF_SECS := 600

  predicate BuildProbeAllowed(last: nat, now: nat) {
    last == 0 || (if now >= last then now - last else 0) >= BUILD_BACKOFF_SECS
  }

  // ---- The callers as a step relation -----------------------------------------------------

  /** Where a caller of `maybe_build_vector_index` is. `tries` counts its failed swaps. */
  datatype Pc =
    | Idle
    | Clocked(now: nat)
    | Loaded(now: nat, last: nat, tries: nat)
    | Claimed(stamp: nat)
    | Building(stamp: nat)

  /** `time` is the wall clock; `claims` lists the stamps of the successful swaps. */
  datatype State = State(time: nat, slot: nat, flag: bool, callers: seq<Pc>, claims: seq<nat>)

  /** What the wall clock may do: `floor` is the least value it shows, `back` says whether
      it may step back. */
  datatype Clock = Clock(floor: nat, back: bool)

  datatype Action =
    | SetClock(t: nat)
    | ReadClock(c: nat)
    | Load(c: nat)
    | Refuse(c: nat)
    | CompareExchange(c: nat)
    | NoBuild(c: nat)
    | StartBuild(c: nat)
    | EndBuild(c: nat)

  predicate At(s: State, c: nat) {
    c < |s.callers|
  }

  predicate Enabled(k: Clock, s: State, a: Action) {
    match a
    case SetClock(t) => t >= k.floor && (k.back || t >= s.time)
    case ReadClock(c) => At(s, c) && s.callers[c].Idle?
    case Load(c) => At(s, c) && s.callers[c].Clocked?
    case Refuse(c) => At(s, c) && s.callers[c].Loaded? && !BuildProbeAllowed(s.callers[c].last, s.callers[c].now)
    case CompareExchange(c) =>
      At(s, c) && s.callers[c].Loaded? && BuildProbeAllowed(s.callers[c].last, s.callers[c].now)
    case NoBuild(c) => At(s, c) && s.callers[c].Claimed?
    case StartBuild(c) => At(s, c) && s.callers[c].Claimed?
    case EndBuild(c) => At(s, c) && s.callers[c].Building?
  }

  function Move(s: State, c: nat, p: Pc): State
    requires At(s, c)
  {
    s.(callers := s.callers[c := p])
  }

  /** The swap: it succeeds on the value the caller saw, else the caller looks again with
      the fresh value. */
  function Swap(s: State, c: nat): State
    requires At(s, c) && s.callers[c].Loaded?
  {
    var p := s.callers[c];
    if s.slot == p.last then
      Move(s, c, Claimed(p.now)).(slot := p.now, claims := s.claims + [p.now])
    else
      Move(s, c, if BuildProbeAllowed(s.slot, p.now) then Loaded(p.now, s.slot, p.tries + 1) else Idle)
  }

  function Next(k: Clock, s: State, a: Action): State
    requires Enabled(k, s, a)
  {
    match a
    case SetClock(t) => s.(time := t)
    case ReadClock(c) => Move(s, c, Clocked(s.time))
    case Load(c) => Move(s, c, Loaded(s.callers[c].now, s.slot, 0))
    case Refuse(c) => Move(s, c, Idle)
    case CompareExchange(c) => Swap(s, c)
    case NoBuild(c) => Move(s, c, Idle)
    case StartBuild(c) => Move(s, c, Building(s.callers[c].stamp)).(flag := true)
    case EndBuild(c) => Move(s, c, Idle).(flag := false)
  }

  predicate Legal(k: Clock, s: State, acts: seq<Action>)
    decreases |acts|
  {
    acts == [] || (Enabled(k, s, acts[0]) && Legal(k, Next(k, s, acts[0]), acts[1..]))
  }

  function After(k: Clock, s: State, acts: seq<Action>): State
    requires Legal(k, s, acts)
    decreases |acts|
  {
    if acts == [] then s else After(k, Next(k, s, acts[0]), acts[1..])
  }

  function Init(n: nat, time: nat): State {
    State(time, 0, false, seq(n, _ => Idle), [])
  }

  // ---- Claims are a back-off apart --------------------------------------------------------

  predicate Apart(a: nat, b: nat) {
    a + BUILD_BACKOFF_SECS <= b
  }

  ghost predicate Spaced(claims: seq<nat>) {
    forall i, j | 0 <= i < j < |claims| :: Apart(claims[i], claims[j])
  }

  predicate Holds(p: Pc) {
    p.Claimed? || p.Building?
  }

  /** What one caller knows: its reading is positive, the slot has moved on by whole
      back-offs since it looked, and every retry cost it one back-off. */
  predicate CallerOk(s: State, p: Pc) {
    match p
    case Idle => true
    case Clocked(now) => now > 0
    case Loaded(now, last, tries) =>
      && now > 0
      && (last == 0 || last == s.slot || Apart(last, s.slot))
      && (tries > 0 ==> (tries - 1) * BUILD_BACKOFF_SECS < last && Apart(last, now))
    case Claimed(stamp) => 0 < stamp <= s.slot
    case Building(stamp) => 0 < stamp <= s.slot
  }

  predicate Disjoint(s: State, c: nat, d: nat)
    requires At(s, c) && At(s, d)
  {
    Holds(s.callers[c]) && Holds(s.callers[d]) ==>
      Apart(s.callers[c].stamp, s.callers[d].stamp) || Apart(s.callers[d].stamp, s.callers[c].stamp)
  }

  ghost predicate GateInv(s: State) {
    && s.time > 0
    && (forall c | 0 <= c < |s.callers| :: CallerOk(s, s.callers[c]))
    && (forall c, d | 0 <= c < d < |s.callers| :: Disjoint(s, c, d))
    && Spaced(s.claims)
    && s.slot == (if s.claims == [] then 0 else s.claims[|s.claims| - 1])
    && (s.slot == 0 <==> s.claims == [])
  }

  /** A successful swap stamps a value one back-off above everything stamped before. */
  lemma SwapIsApart(s: State, c: nat)
    requires GateInv(s) && At(s, c) && s.callers[c].Loaded? && s.slot == s.callers[c].last
    requires BuildProbeAllowed(s.callers[c].last, s.callers[c].now)
    ensures GateInv(Swap(s, c))
  {
    var now := s.callers[c].now;
    assert CallerOk(s, s.callers[c]);
    forall i | 0 <= i < |s.claims| ensures Apart(s.claims[i], now) {
      if i < |s.claims| - 1 {
        assert Apart(s.claims[i], s.claims[|s.claims| - 1]);
      }
      assert s.slot >= s.claims[i];
    }
    forall d | 0 <= d < |s.callers| && d != c
      ensures Holds(s.callers[d]) ==> Apart(s.callers[d].stamp, now)
      ensures CallerOk(Swap(s, c), s.callers[d])
    {
      assert CallerOk(s, s.callers[d]);
    }
    var t := Swap(s, c);
    forall a, b | 0 <= a < b < |t.callers| ensures Disjoint(t, a, b) {
      assert Disjoint(s, a, b);
    }
  }

  /** Moving one caller without stamping keeps the invariant. */
  lemma MoveKeepsGate(s: State, c: nat, p: Pc, flag: bool)
    requires GateInv(s) && At(s, c) && CallerOk(s, p)
    requires Holds(p) ==> Holds(s.callers[c]) && p.stamp == s.callers[c].stamp
    ensures GateInv(Move(s, c, p).(flag := flag))
  {
    var t := Move(s, c, p).(flag := flag);
    forall d | 0 <= d < |t.callers| ensures CallerOk(t, t.callers[d]) {
      assert CallerOk(s, s.callers[d]);
    }
    forall a, b | 0 <= a < b < |t.callers| ensures Disjoint(t, a, b) {
      assert Disjoint(s, a, b);
    }
  }

  lemma StepKeepsGate(k: Clock, s: State, a: Action)
    requires k.floor > 0 && GateInv(s) && Enabled(k, s, a)
    ensures GateInv(Next(k, s, a))
  {
    match a
    case SetClock(t) =>
      var u := Next(k, s, a);
      forall c | 0 <= c < |u.callers| ensures CallerOk(u, u.callers[c]) {
        assert CallerOk(s, s.callers[c]);
      }
      forall c, d | 0 <= c < d < |u.callers| ensures Disjoint(u, c, d) {
        assert Disjoint(s, c, d);
      }
    case CompareExchange(c) =>
      var p := s.callers[c];
      assert CallerOk(s, p);
      if s.slot == p.last {
        SwapIsApart(s, c);
      } else {
        MoveKeepsGate(s, c, Swap(s, c).callers[c], s.flag);
      }
    case ReadClock(c) => MoveKeepsGate(s, c, Clocked(s.time), s.flag);
    case Load(c) =>
      assert CallerOk(s, s.callers[c]);
      MoveKeepsGate(s, c, Loaded(s.callers[c].now, s.slot, 0), s.flag);
    case Refuse(c) => MoveKeepsGate(s, c, Idle, s.flag);
    case NoBuild(c) => MoveKeepsGate(s, c, Idle, s.flag);
    case StartBuild(c) =>
      assert CallerOk(s, s.callers[c]);
      MoveKeepsGate(s, c, Building(s.callers[c].stamp), true);
    case EndBuild(c) => MoveKeepsGate(s, c, Idle, false);
  }

  lemma {:induction false} RunsKeepGate(k: Clock, s: State, acts: seq<Action>)
    requires k.floor > 0 && GateInv(s) && Legal(k, s, acts)
    ensures GateInv(After(k, s, acts))
    decreases |acts|
  {
    if acts != [] {
      StepKeepsGate(k, s, acts[0]);
      RunsKeepGate(k, Next(k, s, acts[0]), acts[1..]);
    }
  }

  /** Whatever the clock does above zero, even stepping back, every two successful claims
      are a back-off apart, and no caller retries more than once per back-off below its
      reading. */
  lemma ClaimsAreSpaced(k: Clock, n: nat, time: nat, acts: seq<Action>)
    requires k.floor > 0 && time > 0 && Legal(k, Init(n, time), acts)
    ensures var s := After(k, Init(n, time), acts);
      && Spaced(s.claims)
      && forall c | 0 <= c < n && At(s, c) && s.callers[c].Loaded? ::
           s.callers[c].tries * BUILD_BACKOFF_SECS <= s.callers[c].now
  {
    RunsKeepGate(k, Init(n, time), acts);
    var s := After(k, Init(n, time), acts);
    forall c | 0 <= c < n && At(s, c) && s.callers[c].Loaded?
      ensures s.callers[c].tries * BUILD_BACKOFF_SECS <= s.callers[c].now
    {
      assert CallerOk(s, s.callers[c]);
    }
  }

  // ---- The clock must not show zero -------------------------------------------------------

  /** `s` is reached from `n` idle callers by a legal run whose states are all timely. */
  ghost predicate Reached(k: Clock, bound: nat, n: nat, time: nat, acts: seq<Action>, s: State) {
    && Legal(k, Init(n, time), acts)
    && TimelyRun(k, bound, Init(n, time), acts)
    && After(k, Init(n, time), acts) == s
  }

  lemma {:induction false} RunAppends(k: Clock, bound: nat, s: State, acts: seq<Action>, a: Action)
    requires Legal(k, s, acts) && TimelyRun(k, bound, s, acts)
    requires Enabled(k, After(k, s, acts), a) && Timely(bound, Next(k, After(k, s, acts), a))
    ensures Legal(k, s, acts + [a]) && TimelyRun(k, bound, s, acts + [a])
    ensures After(k, s, acts + [a]) == Next(k, After(k, s, acts), a)
    decreases |acts|
  {
    if acts == [] {
      assert (acts + [a])[1..] == [];
    } else {
      assert (acts + [a])[1..] == acts[1..] + [a];
      RunAppends(k, bound, Next(k, s, acts[0]), acts[1..], a);
    }
  }

  lemma Extend(k: Clock, bound: nat, n: nat, time: nat, acts: seq<Action>, s: State, a: Action)
      returns (more: seq<Action>, t: State)
    requires Reached(k, bound, n, time, acts, s) && Enabled(k, s, a) && Timely(bound, Next(k, s, a))
    ensures t == Next(k, s, a) && Reached(k, bound, n, time, more, t)
  {
    RunAppends(k, bound, Init(n, time), acts, a);
    more, t := acts + [a], Next(k, s, a);
  }

  /** A caller goes through the gate alone. */
  lemma Claim(k: Clock, bound: nat, n: nat, time: nat, acts: seq<Action>, s: State, c: nat)
      returns (more: seq<Action>, t: State)
    requires Reached(k, bound, n, time, acts, s) && Timely(bound, s)
    requires At(s, c) && s.callers[c].Idle? && BuildProbeAllowed(s.slot, s.time)
    ensures Reached(k, bound, n, time, more, t)
    ensures t == Move(s, c, Claimed(s.time)).(slot := s.time, claims := s.claims + [s.time])
  {
    more, t := Extend(k, bound, n, time, acts, s, ReadClock(c));
    more, t := Extend(k, bound, n, time, more, t, Load(c));
    more, t := Extend(k, bound, n, time, more, t, CompareExchange(c));
    assert t.callers == s.callers[c := Claimed(s.time)];
  }

  ghost predicate AlwaysSpaced(floor: nat) {
    forall n: nat, time: nat, back, acts, s ::
      time >= floor && Ran(Clock(floor, back), n, time, acts, s) ==> Spaced(s.claims)
  }

  ghost predicate Ran(k: Clock, n: nat, time: nat, acts: seq<Action>, s: State) {
    Legal(k, Init(n, time), acts) && After(k, Init(n, time), acts) == s
  }

  /** The back-off holds in every run exactly when the clock never shows zero: a claim
      stamped zero leaves the slot looking unclaimed. */
  lemma SpacedExactlyWhenPositive(floor: nat)
    ensures AlwaysSpaced(floor) <==> floor > 0
  {
    if floor > 0 {
      forall n: nat, time: nat, back, acts, s |
        time >= floor && Ran(Clock(floor, back), n, time, acts, s)
        ensures Spaced(s.claims)
      {
        ClaimsAreSpaced(Clock(floor, back), n, time, acts);
      }
    } else {
      var k := Clock(0, false);
      var s0 := Init(2, 0);
      assert Reached(k, 1, 2, 0, [], s0);
      var a1, s1 := Claim(k, 1, 2, 0, [], s0, 0);
      var a2, s2 := Claim(k, 1, 2, 0, a1, s1, 1);
      assert s2.claims == [0, 0] && Ran(k, 2, 0, a2, s2);
      assert !Apart(s2.claims[0], s2.claims[1]);
      assert !Spaced(s2.claims);
    }
  }

  // ---- The read-only pre-filter -----------------------------------------------------------

  /** `build_probe_claimed_recently`: one load, nothing written. */
  predicate ClaimedRecently(s: State, now: nat) {
    !BuildProbeAllowed(s.slot, now)
  }

  /** When the pre-filter refuses a reading, no later state admits that reading or an
      earlier one: whoever is refused at a glance would have been refused by the claim. */
  lemma {:induction false} RefusalIsLasting(k: Clock, s: State, acts: seq<Action>, now: nat)
    requires k.floor > 0 && GateInv(s) && Legal(k, s, acts) && ClaimedRecently(s, now)
    ensures forall r: nat | r <= now :: ClaimedRecently(After(k, s, acts), r)
    decreases |acts|
  {
    if acts != [] {
      var t := Next(k, s, acts[0]);
      StepKeepsGate(k, s, acts[0]);
      if acts[0].CompareExchange? {
        assert CallerOk(s, s.callers[acts[0].c]);
      }
      assert t.slot >= s.slot;
      RefusalIsLasting(k, t, acts[1..], now);
    }
  }

  /** A caller that leaves the gate empty-handed was rightly turned away: the slot, as it is at
      that moment, does not admit its reading. */
  lemma TurnedAwayRightly(k: Clock, s: State, a: Action, c: nat)
    requires GateInv(s) && Enabled(k, s, a) && At(s, c) && s.callers[c].Loaded?
    requires Next(k, s, a).callers[c].Idle?
    ensures ClaimedRecently(s, s.callers[c].now)
  {
    assert CallerOk(s, s.callers[c]);
  }

  // ---- Builds and the in-flight flag ------------------------------------------------------

  predicate Runs(s: State, c: nat) {
    At(s, c) && s.callers[c].Building?
  }

  ghost predicate Running(s: State) {
    exists c: nat :: Runs(s, c)
  }

  ghost predicate OneAtATime(s: State) {
    forall c: nat, d: nat :: Runs(s, c) && Runs(s, d) ==> c == d
  }

  /** The flag says exactly whether a build is running. */
  ghost predicate FlagExact(s: State) {
    s.flag <==> Running(s)
  }

  /** Every running build is younger than `bound` seconds, counted from its claim. */
  ghost predicate Timely(bound: nat, s: State) {
    forall c: nat :: Runs(s, c) ==> s.time < s.callers[c].stamp + bound
  }

  ghost predicate TimelyRun(k: Clock, bound: nat, s: State, acts: seq<Action>)
    requires Legal(k, s, acts)
    decreases |acts|
  {
    Timely(bound, s) && (acts != [] ==> TimelyRun(k, bound, Next(k, s, acts[0]), acts[1..]))
  }

  /** With a clock that never steps back nothing read or stamped is in the future. */
  predicate InThePast(s: State, p: Pc) {
    match p
    case Idle => true
    case Clocked(now) => now <= s.time
    case Loaded(now, _, _) => now <= s.time
    case Claimed(stamp) => stamp <= s.time
    case Building(stamp) => stamp <= s.time
  }

  ghost predicate Past(s: State) {
    forall c | 0 <= c < |s.callers| :: InThePast(s, s.callers[c])
  }

  lemma StepKeepsPast(k: Clock, s: State, a: Action)
    requires !k.back && Past(s) && Enabled(k, s, a)
    ensures Past(Next(k, s, a))
  {
    var t := Next(k, s, a);
    forall c | 0 <= c < |t.callers| ensures InThePast(t, t.callers[c]) {
      assert InThePast(s, s.callers[c]);
    }
  }

  /** Two builds whose claims are a back-off apart cannot both be younger than one. */
  lemma TimelyIsAlone(s: State)
    requires GateInv(s) && Past(s) && Timely(BUILD_BACKOFF_SECS, s)
    ensures OneAtATime(s)
  {
    forall c: nat, d: nat | Runs(s, c) && Runs(s, d) ensures c == d {
      assert InThePast(s, s.callers[c]) && InThePast(s, s.callers[d]);
      assert (c < d ==> Disjoint(s, c, d)) && (d < c ==> Disjoint(s, d, c));
    }
  }

  lemma StepKeepsFlag(k: Clock, s: State, a: Action)
    requires Enabled(k, s, a) && OneAtATime(s) && FlagExact(s)
    ensures FlagExact(Next(k, s, a))
  {
    var t := Next(k, s, a);
    match a
    case SetClock(_) => forall c: nat ensures Runs(t, c) <==> Runs(s, c) { }
    case StartBuild(c) => assert Runs(t, c);
    case EndBuild(c) =>
      assert Runs(s, c);
      forall d: nat ensures !Runs(t, d) {
        assert Runs(t, d) ==> Runs(s, d);
      }
    case _ => forall c: nat ensures Runs(t, c) <==> Runs(s, c) { }
  }

  lemma {:induction false} TimelyRunsAreExact(k: Clock, s: State, acts: seq<Action>)
    requires k.floor > 0 && !k.back && GateInv(s) && Past(s) && FlagExact(s)
    requires Legal(k, s, acts) && TimelyRun(k, BUILD_BACKOFF_SECS, s, acts)
    ensures OneAtATime(After(k, s, acts)) && FlagExact(After(k, s, acts))
    decreases |acts|
  {
    TimelyIsAlone(s);
    if acts != [] {
      StepKeepsGate(k, s, acts[0]);
      StepKeepsPast(k, s, acts[0]);
      StepKeepsFlag(k, s, acts[0]);
      TimelyRunsAreExact(k, Next(k, s, acts[0]), acts[1..]);
    }
  }

  lemma {:induction false} ShorterIsTimely(k: Clock, bound: nat, s: State, acts: seq<Action>)
    requires Legal(k, s, acts) && bound <= BUILD_BACKOFF_SECS && TimelyRun(k, bound, s, acts)
    ensures TimelyRun(k, BUILD_BACKOFF_SECS, s, acts)
    decreases |acts|
  {
    if acts != [] {
      ShorterIsTimely(k, bound, Next(k, s, acts[0]), acts[1..]);
    }
  }

  /** A build younger than nothing does not run at all. */
  lemma {:induction false} NoBuildsAreExact(k: Clock, s: State, acts: seq<Action>)
    requires !k.back && Past(s) && FlagExact(s) && Legal(k, s, acts) && TimelyRun(k, 0, s, acts)
    ensures OneAtATime(After(k, s, acts)) && FlagExact(After(k, s, acts))
    decreases |acts|
  {
    forall c: nat ensures !Runs(s, c) {
      assert At(s, c) ==> InThePast(s, s.callers[c]);
    }
    if acts != [] {
      StepKeepsPast(k, s, acts[0]);
      StepKeepsFlag(k, s, acts[0]);
      NoBuildsAreExact(k, Next(k, s, acts[0]), acts[1..]);
    }
  }

  /** In every run of every number of callers whose builds are all younger than `bound`,
      builds do not overlap and the flag is exact. */
  ghost predicate AlwaysExact(k: Clock, bound: nat) {
    forall n: nat, time: nat, acts, s :: time >= k.floor && Reached(k, bound, n, time, acts, s)
      ==> OneAtATime(s) && FlagExact(s)
  }

  /** The flag is down under a running build. */
  ghost predicate Hidden(s: State) {
    Runs(s, 1) && !s.flag
  }

  /** A build one back-off old lets a second caller through, and whichever ends first
      clears the flag under the other. */
  lemma SlowBuildsOverlap(k: Clock, bound: nat) returns (acts: seq<Action>, s: State)
    requires bound > BUILD_BACKOFF_SECS
    ensures Reached(k, bound, 2, k.floor + 1, acts, s) && Hidden(s)
  {
    var time := k.floor + 1;
    s := Init(2, time);
    acts := [];
    assert Reached(k, bound, 2, time, acts, s);
    acts, s := Claim(k, bound, 2, time, acts, s, 0);
    acts, s := Extend(k, bound, 2, time, acts, s, StartBuild(0));
    acts, s := Extend(k, bound, 2, time, acts, s, SetClock(time + BUILD_BACKOFF_SECS));
    acts, s := Claim(k, bound, 2, time, acts, s, 1);
    acts, s := Extend(k, bound, 2, time, acts, s, StartBuild(1));
    acts, s := Extend(k, bound, 2, time, acts, s, EndBuild(0));
  }

  /** A clock that steps back after two claims makes both builds young at once, however
      small the bound. */
  lemma BackwardClockOverlaps(k: Clock, bound: nat) returns (acts: seq<Action>, s: State)
    requires k.back
    ensures Reached(k, bound, 2, k.floor + 1, acts, s) && Hidden(s)
  {
    var time := k.floor + 1;
    s := Init(2, time);
    acts := [];
    assert Reached(k, bound, 2, time, acts, s);
    acts, s := Claim(k, bound, 2, time, acts, s, 0);
    acts, s := Extend(k, bound, 2, time, acts, s, SetClock(time + BUILD_BACKOFF_SECS));
    acts, s := Claim(k, bound, 2, time, acts, s, 1);
    acts, s := Extend(k, bound, 2, time, acts, s, SetClock(k.floor));
    acts, s := Extend(k, bound, 2, time, acts, s, StartBuild(0));
    acts, s := Extend(k, bound, 2, time, acts, s, StartBuild(1));
    acts, s := Extend(k, bound, 2, time, acts, s, EndBuild(0));
  }

  /** A clock that shows zero lets two callers through at once. */
  lemma ZeroClockOverlaps(k: Clock, bound: nat) returns (acts: seq<Action>, s: State)
    requires k.floor == 0 && bound > 0
    ensures Reached(k, bound, 2, 0, acts, s) && Hidden(s)
  {
    s := Init(2, 0);
    acts := [];
    assert Reached(k, bound, 2, 0, acts, s);
    acts, s := Claim(k, bound, 2, 0, acts, s, 0);
    acts, s := Claim(k, bound, 2, 0, acts, s, 1);
    acts, s := Extend(k, bound, 2, 0, acts, s, StartBuild(0));
    acts, s := Extend(k, bound, 2, 0, acts, s, StartBuild(1));
    acts, s := Extend(k, bound, 2, 0, acts, s, EndBuild(0));
  }

  predicate Suffices(k: Clock, bound: nat) {
    bound <= BUILD_BACKOFF_SECS && !k.back && (k.floor > 0 || bound == 0)
  }

  lemma SufficientIsExact(k: Clock, bound: nat, n: nat, time: nat, acts: seq<Action>, s: State)
    requires Suffices(k, bound) && time >= k.floor && Reached(k, bound, n, time, acts, s)
    ensures OneAtATime(s) && FlagExact(s)
  {
    if bound == 0 {
      NoBuildsAreExact(k, Init(n, time), acts);
    } else {
      ShorterIsTimely(k, bound, Init(n, time), acts);
      TimelyRunsAreExact(k, Init(n, time), acts);
    }
  }

  /** Builds never overlap and the flag is exact in every run exactly when the bound on a
      build's age is at most the back-off, the clock never steps back, and it never shows
      zero (or no build runs at all). */
  lemma ExactExactlyWhenShort(k: Clock, bound: nat)
    ensures AlwaysExact(k, bound) <==> Suffices(k, bound)
  {
    if Suffices(k, bound) {
      forall n: nat, time: nat, acts, s | time >= k.floor && Reached(k, bound, n, time, acts, s)
        ensures OneAtATime(s) && FlagExact(s)
      {
        SufficientIsExact(k, bound, n, time, acts, s);
      }
    } else {
      var acts, s;
      if k.back {
        acts, s := BackwardClockOverlaps(k, bound);
      } else if bound > BUILD_BACKOFF_SECS {
        acts, s := SlowBuildsOverlap(k, bound);
      } else {
        acts, s := ZeroClockOverlaps(k, bound);
      }
      assert Running(s);
    }
  }

  // ---- One attempt against the catalog ----------------------------------------------------

  datatype IndexState = Absent | Present | PresentInvalid

  /** What the server makes of `CREATE INDEX CONCURRENTLY`: it completes, fails having done
      nothing, or fails leaving an invalid entry. */
  datatype Creation = Completes | FailsClean | LeavesInvalid

  /** What one attempt meets: the catalog probe's row count, if it answers, and how the two
      drop statements and the create statement go. */
  datatype Server = Server(probe: bool, count: int, dropConcurrently: bool, dropPlain: bool, create: Creation)

  predicate CanDrop(v: Server) {
    v.dropConcurrently || v.dropPlain
  }

  /** `IF NOT EXISTS` succeeds without effect on any entry of that name, valid or not. */
  function Create(index: IndexState, how: Creation): (IndexState, bool) {
    if index != Absent then (index, true)
    else match how
      case Completes => (Present, true)
      case FailsClean => (Absent, false)
      case LeavesInvalid => (PresentInvalid, false)
  }

  /** The catalog after one attempt that won the claim; `repair` drops an invalid entry
      first, as the code does. */
  function Attempt(repair: bool, index: IndexState, minRows: int, v: Server): IndexState {
    if !v.probe || v.count < minRows || index == Present then index
    else if index == PresentInvalid && repair then
      if CanDrop(v) then Create(Absent, v.create).0 else index
    else Create(index, v.create).0
  }

  function Attempts(repair: bool, index: IndexState, minRows: int, vs: seq<Server>): IndexState
    decreases |vs|
  {
    if vs == [] then index else Attempts(repair, Attempt(repair, index, minRows, vs[0]), minRows, vs[1..])
  }

  /** A server on which an attempt can succeed. */
  predicate Healthy(minRows: int, v: Server) {
    v.probe && v.count >= minRows && CanDrop(v) && v.create.Completes?
  }

  ghost predicate Recovers(repair: bool) {
    forall index, minRows, vs, i | 0 <= i < |vs| && Healthy(minRows, vs[i]) ::
      Attempts(repair, index, minRows, vs) == Present
  }

  /** Below the row threshold, or without an answer from the probe, nothing changes; an index
      never comes about otherwise than by a completed create over enough rows. */
  lemma {:induction false} PresentNeedsRows(repair: bool, index: IndexState, minRows: int, vs: seq<Server>)
    ensures (forall v <- vs :: !v.probe || v.count < minRows) ==> Attempts(repair, index, minRows, vs) == index
    ensures Attempts(repair, index, minRows, vs) == Present ==>
      index == Present || exists v <- vs :: v.probe && v.count >= minRows && v.create == Completes
    decreases |vs|
  {
    if vs != [] {
      assert vs[0] in vs && forall v <- vs[1..] :: v in vs;
      PresentNeedsRows(repair, Attempt(repair, index, minRows, vs[0]), minRows, vs[1..]);
    }
  }

  lemma {:induction false} PresentStays(repair: bool, minRows: int, vs: seq<Server>)
    ensures Attempts(repair, Present, minRows, vs) == Present
    decreases |vs|
  {
    if vs != [] {
      PresentStays(repair, minRows, vs[1..]);
    }
  }

  lemma {:induction false} HealthyAttemptBuilds(index: IndexState, minRows: int, vs: seq<Server>, i: nat)
    requires i < |vs| && Healthy(minRows, vs[i])
    ensures Attempts(true, index, minRows, vs) == Present
    decreases |vs|
  {
    var next := Attempt(true, index, minRows, vs[0]);
    if i == 0 {
      PresentStays(true, minRows, vs[1..]);
    } else {
      HealthyAttemptBuilds(next, minRows, vs[1..], i - 1);
    }
  }

  /** From any catalog, after any failures, one healthy attempt leaves a valid index for
      good; and this is so exactly because an invalid entry is dropped first. */
  lemma RecoversExactlyByRepair(repair: bool)
    ensures Recovers(repair) <==> repair
  {
    if repair {
      forall index, minRows, vs, i | 0 <= i < |vs| && Healthy(minRows, vs[i])
        ensures Attempts(repair, index, minRows, vs) == Present
      {
        HealthyAttemptBuilds(index, minRows, vs, i);
      }
    } else {
      var v := Server(true, 0, true, true, Completes);
      var vs := [v];
      assert Healthy(0, vs[0]);
      assert vs[1..] == [];
      assert Attempts(repair, PresentInvalid, 0, vs) == PresentInvalid;
    }
  }

  /** The shared state of one process, as one caller works on it. */
  class Builder {
    var slot: nat
    var flag: bool
    var index: IndexState

    constructor ()
      ensures slot == 0 && !flag && index == Absent
    {
      slot, flag, index := 0, false, Absent;
    }

    /** The swap loop of one caller; `others` are the values other callers leave in the
        slot just before its swaps. It ends, and the whole call acts like one check and
        stamp at the moment of its last access, when it saw `seen`. */
    method WithinBackoff(now: nat, others: seq<nat>) returns (claimed: bool, ghost seen: nat)
      modifies this`slot
      ensures claimed <==> BuildProbeAllowed(seen, now)
      ensures slot == if claimed then now else seen
      ensures seen == old(slot) || seen in others
    {
      var last := slot;
      seen := slot;
      var k := 0;
      while true
        invariant k <= |others| && last == seen == slot
        invariant seen == old(slot) || seen in others
        decreases |others| - k
      {
        if !BuildProbeAllowed(last, now) {
          return false, seen;
        }
        if k < |others| {
          slot, k := others[k], k + 1;
          seen := slot;
        }
        if slot == last {
          slot := now;
          return true, seen;
        }
        if !BuildProbeAllowed(slot, now) {
          return false, seen;
        }
        last := slot;
      }
    }

    /** `true` is returned only when this attempt left a valid index where there was none;
        a refused attempt touches nothing but what others stamped meanwhile, and no path
        leaves the flag raised. */
    method MaybeBuild(now: nat, others: seq<nat>, minRows: int, v: Server) returns (built: bool, ghost seen: nat)
      modifies this
      ensures flag ==> old(flag)
      ensures seen == old(slot) || seen in others
      ensures !BuildProbeAllowed(seen, now) ==> !built && slot == seen && index == old(index)
      ensures BuildProbeAllowed(seen, now) ==>
        && slot == now
        && index == Attempt(true, old(index), minRows, v)
        && (built <==> index == Present && old(index) != Present)
      ensures !v.probe || v.count < minRows ==> !built && index == old(index)
      ensures built <==>
        && BuildProbeAllowed(seen, now) && v.probe && v.count >= minRows && v.create == Completes
        && (old(index) == Absent || (old(index) == PresentInvalid && (v.dropConcurrently || v.dropPlain)))
    {
      built := false;
      var claimed;
      claimed, seen := WithinBackoff(now, others);
      if !claimed || !v.probe || v.count < minRows || index == Present {
        return;
      }
      flag := true;
      if index == PresentInvalid {
        if v.dropConcurrently || v.dropPlain {
          index := Absent;
        } else {
          flag := false;
          return;
        }
      }
      var r := Create(index, v.create);
      index, built, flag := r.0, r.1, false;
    }
  }
}
