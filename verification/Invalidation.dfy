/** Cross-process cache invalidation (`src/db/notify.rs`): writers, one lossy
    LISTEN/NOTIFY session, the listen loop, two coalescing watch channels with
    their reload subscribers, and the fail-closed supervisor, as one machine
    whose steps interleave freely.

    The order in which three pairs of operations run is a parameter, so that the
    guarantee can be tied to exactly the orders the code uses. */
module Invalidation {

  datatype Channel = Settings | Catalog

  /** What can arrive on the session; the listener ignores foreign channels. */
  datatype Notification = On(channel: Channel) | Foreign

  datatype Worker = ListenLoop | Subscriber(channel: Channel)

  /** Position inside `run_on_bumps`: awaiting `changed`, woken, inside the reload
      before its read, and after the read with the version it saw. */
  datatype SubscriberPc = Waiting | Woken | Reloading | HasRead(version: nat)

  /** One channel: the committed version, commits whose follow-up NOTIFY has not
      run, whether such a NOTIFY failed, the watch slot, and the subscriber. */
  datatype Chan = Chan(
    db: nat, owed: nat, lost: bool,
    bump: nat, notified: nat,
    seen: nat, pc: SubscriberPc, cache: nat, failed: bool)

  datatype Session = Session(up: bool, listening: bool, queue: seq<Notification>)

  datatype ListenerPc =
    | Connecting | Opened | BumpingSettings | BumpingCatalog | Subscribing | Receiving

  datatype SupervisorPc = Watching | Holding(name: Worker) | Returned | Aborted

  /** The listen loop and its session. */
  datatype Link = Link(session: Session, listener: ListenerPc, resyncs: nat)

  /** Worker deaths, the supervisor, and the drop of the last handle. */
  datatype Supervision = Supervision(
    ended: set<Worker>,          // workers whose task is over
    unreported: set<Worker>,     // over, drop guard not yet run
    reports: seq<Worker>,        // death reports in the channel
    supervisor: SupervisorPc,
    dropped: bool,               // the last handle is being dropped
    stop: bool, died: bool,
    endedEarly: set<Worker>)     // history: ended before the drop began

  datatype State = State(settings: Chan, catalog: Chan, link: Link, sup: Supervision)

  /** LISTEN before the resync bump; mark the bump seen before reloading; stop
      flag before the aborts. */
  datatype Order = Order(listenFirst: bool, markFirst: bool, stopFirst: bool)

  const CODE_ORDER := Order(true, true, true)

  datatype Action =
    // the environment
    | Commit(c: Channel) | Write(c: Channel) | NotifyFails(c: Channel) | ForeignNotify
    | LoseSession(keep: nat) | ReceiveFails | ReloadFails(c: Channel)
    | End(w: Worker) | DropHandle | SetStop | Abort(w: Worker) | AbortSupervisor
    // the process itself
    | FollowUp(c: Channel)
    | Open | Listen | ListenFails | BumpSettings | BumpCatalog | Deliver | Reopen
    | Wake(c: Channel) | Borrow(c: Channel) | Read(c: Channel) | Install(c: Channel)
    | Report(w: Worker) | Receive | Decide | Close

  const NEW_CHANNEL := Chan(0, 0, false, 0, 0, 0, Waiting, 0, false)
  const DOWN := Session(false, false, [])
  const WORKERS: set<Worker> := {ListenLoop, Subscriber(Settings), Subscriber(Catalog)}

  const INIT := State(
    NEW_CHANNEL, NEW_CHANNEL, Link(DOWN, Connecting, 0),
    Supervision({}, {}, [], Watching, false, false, false, {}))

  function Of(s: State, c: Channel): Chan {
    if c.Settings? then s.settings else s.catalog
  }

  predicate Live(s: State, w: Worker) {
    w !in s.sup.ended
  }

  predicate Enabled(o: Order, s: State, a: Action) {
    var l, e, p := s.link.listener, s.link.session, s.sup;
    match a
    case Commit(_) => true
    case Write(_) => true
    case NotifyFails(c) => Of(s, c).owed > 0
    case ForeignNotify => true
    case LoseSession(keep) => e.up && keep <= |e.queue|
    case ReceiveFails => Live(s, ListenLoop) && l.Receiving? && !e.up
    case ReloadFails(c) => Live(s, Subscriber(c)) && (Of(s, c).pc.Reloading? || Of(s, c).pc.HasRead?)
    case End(w) => Live(s, w)
    case DropHandle => !p.dropped
    case SetStop => p.dropped && !p.stop
    case Abort(w) => p.dropped && Live(s, w)
    case AbortSupervisor => p.dropped && (p.supervisor.Watching? || p.supervisor.Holding?)
    case FollowUp(c) => Of(s, c).owed > 0
    case Open => Live(s, ListenLoop) && l.Connecting?
    case Listen => Live(s, ListenLoop) && e.up && (if o.listenFirst then l.Opened? else l.Subscribing?)
    case ListenFails => Live(s, ListenLoop) && (l.Opened? || l.Subscribing?)
    case BumpSettings => Live(s, ListenLoop) && (l.BumpingSettings? || (!o.listenFirst && l.Opened?))
    case BumpCatalog => Live(s, ListenLoop) && l.BumpingCatalog?
    case Deliver => Live(s, ListenLoop) && l.Receiving? && e.queue != []
    case Reopen => Live(s, ListenLoop) && l.Receiving? && !e.up && e.queue == []
    case Wake(c) => Live(s, Subscriber(c)) && Of(s, c).pc.Waiting? && Of(s, c).bump > Of(s, c).seen
    case Borrow(c) => Live(s, Subscriber(c)) && Of(s, c).pc.Woken?
    case Read(c) => Live(s, Subscriber(c)) && Of(s, c).pc.Reloading?
    case Install(c) => Live(s, Subscriber(c)) && Of(s, c).pc.HasRead?
    case Report(w) => w in p.unreported
    case Receive => p.supervisor.Watching? && p.reports != []
    case Decide => p.supervisor.Holding?
    case Close => p.supervisor.Watching? && p.reports == [] && p.unreported == {} && WORKERS <= p.ended
  }

  /** A NOTIFY reaches the session only while it is up and has LISTENed. */
  function Notify(e: Session, n: Notification): Session {
    if e.up && e.listening then e.(queue := e.queue + [n]) else e
  }

  /** `changed` and `borrow_and_update` mark the current value seen. */
  function Marked(o: Order, ch: Chan): Chan {
    if o.markFirst then ch.(seen := ch.bump) else ch
  }

  function AfterReload(o: Order, ch: Chan): Chan {
    ch.(pc := Waiting, seen := if o.markFirst then ch.seen else ch.bump)
  }

  function NextChan(o: Order, s: State, a: Action, c: Channel): Chan
    requires Enabled(o, s, a)
  {
    var ch := Of(s, c);
    match a
    case BumpSettings => if c.Settings? then ch.(bump := ch.bump + 1) else ch
    case BumpCatalog => if c.Catalog? then ch.(bump := ch.bump + 1) else ch
    case Deliver =>
      if s.link.session.queue[0] == On(c)
      then ch.(bump := ch.bump + 1, notified := ch.notified + 1) else ch
    case Commit(d) => if d == c then ch.(db := ch.db + 1) else ch
    case Write(d) => if d == c then ch.(db := ch.db + 1, owed := ch.owed + 1) else ch
    case NotifyFails(d) => if d == c then ch.(owed := ch.owed - 1, lost := true) else ch
    case FollowUp(d) => if d == c then ch.(owed := ch.owed - 1) else ch
    case Wake(d) => if d == c then Marked(o, ch).(pc := Woken) else ch
    case Borrow(d) => if d == c then Marked(o, ch).(pc := Reloading) else ch
    case Read(d) => if d == c then ch.(pc := HasRead(ch.db), lost := false, failed := false) else ch
    case Install(d) => if d == c then AfterReload(o, ch).(cache := ch.pc.version) else ch
    case ReloadFails(d) => if d == c then AfterReload(o, ch).(failed := true) else ch
    case _ => ch
  }

  function NextLink(o: Order, k: Link, a: Action): Link
    requires a.LoseSession? ==> a.keep <= |k.session.queue|
    requires a.Deliver? ==> k.session.queue != []
  {
    match a
    case Commit(c) => k.(session := Notify(k.session, On(c)))
    case FollowUp(c) => k.(session := Notify(k.session, On(c)))
    case ForeignNotify => k.(session := Notify(k.session, Foreign))
    case LoseSession(keep) => k.(session := Session(false, false, k.session.queue[..keep]))
    case ReceiveFails => k.(session := DOWN, listener := Connecting)
    case Open => k.(session := Session(true, false, []), listener := Opened)
    case Listen =>
      if o.listenFirst
      then Link(k.session.(listening := true), BumpingSettings, k.resyncs + 1)
      else k.(session := k.session.(listening := true), listener := Receiving)
    case ListenFails => k.(session := DOWN, listener := Connecting)
    case BumpSettings =>
      k.(listener := BumpingCatalog, resyncs := if k.listener.Opened? then k.resyncs + 1 else k.resyncs)
    case BumpCatalog =>
      k.(listener := if o.listenFirst || k.session.listening then Receiving else Subscribing)
    case Deliver => k.(session := k.session.(queue := k.session.queue[1..]))
    case Reopen => Link(Session(true, true, []), BumpingSettings, k.resyncs + 1)
    case _ => k
  }

  function NextSupervision(o: Order, p: Supervision, a: Action): Supervision
    requires a.Receive? ==> p.reports != []
  {
    match a
    case End(w) => Ending(p, w)
    case Abort(w) => Ending(p, w)
    case DropHandle => p.(dropped := true, stop := o.stopFirst)
    case SetStop => p.(stop := true)
    case AbortSupervisor => p.(supervisor := Aborted)
    case Report(w) =>
      p.(unreported := p.unreported - {w},
         reports := if p.supervisor.Returned? || p.supervisor.Aborted? then p.reports else p.reports + [w])
    case Receive => p.(reports := p.reports[1..], supervisor := Holding(p.reports[0]))
    case Decide => if p.stop then p.(supervisor := Watching) else p.(supervisor := Returned, died := true)
    case Close => p.(supervisor := Returned)
    case _ => p
  }

  function Ending(p: Supervision, w: Worker): Supervision {
    p.(ended := p.ended + {w}, unreported := p.unreported + {w},
       endedEarly := if p.dropped then p.endedEarly else p.endedEarly + {w})
  }

  function Next(o: Order, s: State, a: Action): State
    requires Enabled(o, s, a)
  {
    State(NextChan(o, s, a, Settings), NextChan(o, s, a, Catalog),
          NextLink(o, s.link, a), NextSupervision(o, s.sup, a))
  }

  // ---- Runs -------------------------------------------------------------------

  predicate Legal(o: Order, s: State, acts: seq<Action>)
    decreases |acts|
  {
    acts == [] || (Enabled(o, s, acts[0]) && Legal(o, Next(o, s, acts[0]), acts[1..]))
  }

  function After(o: Order, s: State, acts: seq<Action>): State
    requires Legal(o, s, acts)
    decreases |acts|
  {
    if acts == [] then s else After(o, Next(o, s, acts[0]), acts[1..])
  }

  /** Steps the process takes by itself when nothing fails. */
  predicate Internal(s: State, a: Action) {
    || a.FollowUp? || a.Open? || a.Listen? || (a.ListenFails? && !s.link.session.up)
    || a.BumpSettings? || a.BumpCatalog? || a.Deliver? || a.Reopen?
    || a.Wake? || a.Borrow? || a.Read? || a.Install?
    || a.Report? || a.Receive? || a.Decide? || a.Close?
  }

  ghost predicate Quiescent(o: Order, s: State) {
    forall a | Internal(s, a) :: !Enabled(o, s, a)
  }

  /** A failure the design accepts: the follow-up NOTIFY or the last reload failed. */
  predicate Excused(ch: Chan) {
    ch.lost || ch.failed
  }

  predicate Fresh(ch: Chan) {
    ch.cache == ch.db
  }

  // ---- The invariant ------------------------------------------------------------

  /** The version the cache holds, or will hold once the reload in flight lands. */
  function Effective(ch: Chan): nat {
    if ch.pc.HasRead? then ch.pc.version else ch.cache
  }

  /** The session has LISTENed and the bump that follows it has been sent. */
  predicate Covered(k: Link, c: Channel) {
    && k.session.up && k.session.listening
    && (k.listener.Receiving? || (k.listener.BumpingCatalog? && c.Settings?))
  }

  predicate Pending(s: State, c: Channel) {
    var ch := Of(s, c);
    || ch.owed > 0 || Excused(ch)
    || ch.bump > ch.seen || ch.pc.Woken? || ch.pc.Reloading?
    || On(c) in s.link.session.queue || !Covered(s.link, c)
  }

  predicate ChannelInv(s: State, c: Channel) {
    var ch := Of(s, c);
    && ch.seen <= ch.bump
    && ch.cache <= Effective(ch) <= ch.db
    && (Effective(ch) == ch.db || Pending(s, c))
  }

  predicate LinkInv(k: Link) {
    && (k.session.listening ==> k.session.up)
    && (match k.listener
        case Connecting => k.session == DOWN
        case Opened => !k.session.listening && k.session.queue == []
        case Subscribing => false
        case _ => k.session.up ==> k.session.listening)
  }

  /** Bumps are exactly the resyncs plus the notifications of the channel. */
  predicate BumpInv(s: State, c: Channel) {
    Of(s, c).bump + BumpsDue(s.link, c) == s.link.resyncs + Of(s, c).notified
  }

  /** Resync bumps the listener still owes the channel. */
  function BumpsDue(k: Link, c: Channel): int {
    if k.listener.BumpingSettings? || (c.Catalog? && k.listener.BumpingCatalog?) then 1 else 0
  }

  predicate InFlight(p: Supervision, w: Worker) {
    w in p.unreported || w in p.reports || p.supervisor == Holding(w)
  }

  predicate SupervisionInv(p: Supervision) {
    && p.unreported <= p.ended
    && p.endedEarly <= p.ended
    && (p.stop <==> p.dropped)
    && (!p.stop ==> p.ended == p.endedEarly)
    && (p.died ==> p.supervisor.Returned? && p.endedEarly != {})
    && (!p.stop && !p.died ==>
          && (p.supervisor.Watching? || p.supervisor.Holding?)
          && (forall w <- p.reports :: w in p.ended)
          && (p.supervisor.Holding? ==> p.supervisor.name in p.ended)
          && (forall w <- p.ended :: InFlight(p, w)))
  }

  predicate Inv(s: State) {
    && ChannelInv(s, Settings) && ChannelInv(s, Catalog)
    && BumpInv(s, Settings) && BumpInv(s, Catalog)
    && LinkInv(s.link) && SupervisionInv(s.sup)
  }

  lemma LinkStep(s: State, a: Action)
    requires LinkInv(s.link) && Enabled(CODE_ORDER, s, a)
    ensures LinkInv(Next(CODE_ORDER, s, a).link)
  {
  }

  /** The resync bumps of the channel in this step. */
  function ResyncBumps(a: Action, c: Channel): int {
    if (a.BumpSettings? && c.Settings?) || (a.BumpCatalog? && c.Catalog?) then 1 else 0
  }

  lemma ChannelBumps(s: State, a: Action, c: Channel)
    requires Enabled(CODE_ORDER, s, a)
    ensures var ch, next := Of(s, c), NextChan(CODE_ORDER, s, a, c);
      next.bump - next.notified == ch.bump - ch.notified + ResyncBumps(a, c)
  {
  }

  lemma LinkResyncs(s: State, a: Action, c: Channel)
    requires LinkInv(s.link) && Enabled(CODE_ORDER, s, a)
    ensures var next := NextLink(CODE_ORDER, s.link, a);
      next.resyncs - BumpsDue(next, c) == s.link.resyncs - BumpsDue(s.link, c) + ResyncBumps(a, c)
  {
  }

  lemma BumpStep(s: State, a: Action, c: Channel)
    requires LinkInv(s.link) && BumpInv(s, c) && Enabled(CODE_ORDER, s, a)
    ensures BumpInv(Next(CODE_ORDER, s, a), c)
  {
    ChannelBumps(s, a, c);
    LinkResyncs(s, a, c);
  }

  lemma StepKeepsInv(s: State, a: Action)
    requires Inv(s) && Enabled(CODE_ORDER, s, a)
    ensures Inv(Next(CODE_ORDER, s, a))
  {
    LinkStep(s, a);
    BumpStep(s, a, Settings);
    BumpStep(s, a, Catalog);
    SupervisionStep(s, a);
    ChannelStep(s, a, Settings);
    ChannelStep(s, a, Catalog);
  }

  lemma SupervisionStep(s: State, a: Action)
    requires SupervisionInv(s.sup) && Enabled(CODE_ORDER, s, a)
    ensures SupervisionInv(Next(CODE_ORDER, s, a).sup)
  {
    var p, q := s.sup, Next(CODE_ORDER, s, a).sup;
    if a.Receive? {
      assert p.reports == [p.reports[0]] + q.reports;
    }
    if a.Report? && !q.stop && !q.died {
      assert q.reports[|p.reports|] == a.w;
    }
    if a.Close? {
      assert ListenLoop in WORKERS;
    }
  }

  lemma ChannelStep(s: State, a: Action, c: Channel)
    requires LinkInv(s.link) && ChannelInv(s, c) && Enabled(CODE_ORDER, s, a)
    ensures ChannelInv(Next(CODE_ORDER, s, a), c)
  {
    var t := Next(CODE_ORDER, s, a);
    if a.Deliver? {
      assert s.link.session.queue == [s.link.session.queue[0]] + t.link.session.queue;
    }
    if (a.Commit? || a.FollowUp?) && a.c == c && Covered(t.link, c) {
      assert t.link.session.queue[|s.link.session.queue|] == On(c);
    }
  }

  lemma {:induction false} RunsKeepInv(s: State, acts: seq<Action>)
    requires Inv(s) && Legal(CODE_ORDER, s, acts)
    ensures Inv(After(CODE_ORDER, s, acts))
    decreases |acts|
  {
    if acts != [] {
      StepKeepsInv(s, acts[0]);
      RunsKeepInv(Next(CODE_ORDER, s, acts[0]), acts[1..]);
    }
  }

  // ---- What the invariant gives ------------------------------------------------------

  /** At rest, every worker that ended has raised the die flag. */
  lemma RestingSupervisorHasNoticed(s: State)
    requires SupervisionInv(s.sup) && Quiescent(CODE_ORDER, s) && !s.sup.stop
    ensures s.sup.died <==> s.sup.ended != {}
  {
    if !s.sup.died {
      forall w ensures w !in s.sup.ended {
        assert Internal(s, Receive) && Internal(s, Decide) && Internal(s, Report(w));
        assert w in s.sup.ended ==> InFlight(s.sup, w);
      }
    }
  }

  lemma RestingListenerReceives(s: State)
    requires LinkInv(s.link) && Quiescent(CODE_ORDER, s) && s.sup.ended == {}
    ensures forall c :: Covered(s.link, c)
    ensures s.link.session.queue == []
  {
    var l := s.link.listener;
    assert Internal(s, Open) && Internal(s, BumpSettings) && Internal(s, BumpCatalog);
    assert Internal(s, Listen) && Internal(s, Deliver) && Internal(s, Reopen);
    assert l.Opened? && !s.link.session.up ==> Internal(s, ListenFails);
    assert l.Receiving?;
  }

  lemma RestingChannelIsFresh(s: State, c: Channel)
    requires ChannelInv(s, c) && Quiescent(CODE_ORDER, s) && s.sup.ended == {}
    requires Covered(s.link, c) && s.link.session.queue == []
    ensures Fresh(Of(s, c)) || Excused(Of(s, c))
  {
    assert Internal(s, FollowUp(c)) && Internal(s, Wake(c)) && Internal(s, Borrow(c))
        && Internal(s, Read(c)) && Internal(s, Install(c));
  }

  lemma QuiescentIsFreshOrFailing(s: State)
    requires Inv(s) && Quiescent(CODE_ORDER, s) && !s.sup.stop
    ensures s.sup.died <==> s.sup.endedEarly != {}
    ensures !s.sup.died ==> forall c :: Fresh(Of(s, c)) || Excused(Of(s, c))
  {
    RestingSupervisorHasNoticed(s);
    if !s.sup.died {
      RestingListenerReceives(s);
      forall c ensures Fresh(Of(s, c)) || Excused(Of(s, c)) {
        RestingChannelIsFresh(s, c);
      }
    }
  }

  /** Work left before the process comes to rest, if nothing else happens. */
  function Work(s: State): nat {
    ChannelWork(s.settings) + ChannelWork(s.catalog) + LinkWork(s.link) + SupervisorWork(s.sup)
  }

  function ChannelWork(ch: Chan): nat {
    14 * ch.owed
    + (if ch.bump > ch.seen then 5 else 0)
    + (match ch.pc case Waiting => 0 case Woken => 3 case Reloading => 2 case HasRead(_) => 1)
  }

  function LinkWork(k: Link): nat {
    7 * |k.session.queue|
    + (match k.listener
       case Connecting => 14
       case Opened => if k.session.up then 13 else 15
       case BumpingSettings => if k.session.up then 12 else 25
       case BumpingCatalog => if k.session.up then 6 else 19
       case Subscribing => 0
       case Receiving => if k.session.up then 0 else 13)
  }

  function SupervisorWork(p: Supervision): nat {
    3 * |p.unreported| + 2 * |p.reports|
    + (if p.supervisor.Holding? then 2 else if p.supervisor.Watching? then 1 else 0)
  }

  /** The step bumps the channel. */
  predicate Bumps(s: State, a: Action, c: Channel) {
    || (a.BumpSettings? && c.Settings?) || (a.BumpCatalog? && c.Catalog?)
    || (a.Deliver? && s.link.session.queue != [] && s.link.session.queue[0] == On(c))
  }

  predicate Moves(a: Action, c: Channel) {
    (a.Wake? || a.Borrow? || a.Read? || a.Install?) && a.c == c
  }

  lemma ChannelUsesUpWork(s: State, a: Action, c: Channel)
    requires Enabled(CODE_ORDER, s, a) && Internal(s, a)
    ensures ChannelWork(NextChan(CODE_ORDER, s, a, c)) <= ChannelWork(Of(s, c))
      + (if Bumps(s, a, c) then 5 else if a == FollowUp(c) then -14 else if Moves(a, c) then -1 else 0)
  {
  }

  lemma LinkUsesUpWork(s: State, a: Action)
    requires LinkInv(s.link) && Enabled(CODE_ORDER, s, a) && Internal(s, a)
    ensures LinkWork(NextLink(CODE_ORDER, s.link, a)) <= LinkWork(s.link)
      + (match a
         case FollowUp(_) => 7
         case BumpSettings => -6
         case BumpCatalog => -6
         case Deliver => -7
         case Open => -1
         case Listen => -1
         case ListenFails => -1
         case Reopen => -1
         case _ => 0)
  {
  }

  lemma SupervisorUsesUpWork(s: State, a: Action)
    requires Enabled(CODE_ORDER, s, a) && Internal(s, a)
    ensures SupervisorWork(NextSupervision(CODE_ORDER, s.sup, a)) <= SupervisorWork(s.sup)
      - (if a.Report? || a.Receive? || a.Decide? || a.Close? then 1 else 0)
  {
    if a.Report? {
      assert |s.sup.unreported| == |s.sup.unreported - {a.w}| + 1;
    }
  }

  lemma InternalStepsUseUpWork(s: State, a: Action)
    requires LinkInv(s.link) && Enabled(CODE_ORDER, s, a) && Internal(s, a)
    ensures Work(Next(CODE_ORDER, s, a)) < Work(s)
  {
    ChannelUsesUpWork(s, a, Settings);
    ChannelUsesUpWork(s, a, Catalog);
    LinkUsesUpWork(s, a);
    SupervisorUsesUpWork(s, a);
  }

  predicate AllInternal(s: State, acts: seq<Action>)
    requires Legal(CODE_ORDER, s, acts)
    decreases |acts|
  {
    acts == [] || (Internal(s, acts[0]) && AllInternal(Next(CODE_ORDER, s, acts[0]), acts[1..]))
  }

  /** Once writers, failures and shutdown pause, the process comes to rest within
      `Work(s)` steps whatever the schedule, and it rests fresh: coalesced bumps and
      lost notifications leave nothing stale. A worker that died has raised the die
      flag by then instead. */
  lemma {:induction false} Converges(s: State, acts: seq<Action>)
    requires Inv(s) && Legal(CODE_ORDER, s, acts) && AllInternal(s, acts)
    ensures |acts| + Work(After(CODE_ORDER, s, acts)) <= Work(s)
    ensures var t := After(CODE_ORDER, s, acts);
      Quiescent(CODE_ORDER, t) && !t.sup.stop ==>
        if t.sup.endedEarly != {} then t.sup.died
        else !t.sup.died && forall c :: Fresh(Of(t, c)) || Excused(Of(t, c))
    decreases |acts|
  {
    if acts == [] {
      if Quiescent(CODE_ORDER, s) && !s.sup.stop {
        QuiescentIsFreshOrFailing(s);
      }
    } else {
      RunsKeepInv(s, acts[..1]);
      var t := Next(CODE_ORDER, s, acts[0]);
      assert acts[..1][1..] == [];
      assert After(CODE_ORDER, s, acts[..1]) == After(CODE_ORDER, t, acts[..1][1..]);
      InternalStepsUseUpWork(s, acts[0]);
      Converges(t, acts[1..]);
    }
  }

  /** An excuse needs a failing NOTIFY or a failing reload. */
  lemma {:induction false} ExcusesNeedFailures(s: State, acts: seq<Action>)
    requires Legal(CODE_ORDER, s, acts)
    requires forall a <- acts :: !a.NotifyFails? && !a.ReloadFails?
    requires forall c :: !Excused(Of(s, c))
    ensures forall c :: !Excused(Of(After(CODE_ORDER, s, acts), c))
    decreases |acts|
  {
    if acts != [] {
      assert acts[0] in acts;
      ExcusesNeedFailures(Next(CODE_ORDER, s, acts[0]), acts[1..]);
    }
  }

  /** Along every run the committed and the cached versions only grow, whatever the
      subscriber was doing when the newer commit landed. */
  lemma {:induction false} CachesNeverGoBack(s: State, acts: seq<Action>, c: Channel)
    requires Inv(s) && Legal(CODE_ORDER, s, acts)
    ensures var t := After(CODE_ORDER, s, acts);
      Of(s, c).cache <= Of(t, c).cache <= Of(t, c).db && Of(s, c).db <= Of(t, c).db
    decreases |acts|
  {
    if acts == [] {
      assert ChannelInv(s, c);
    } else {
      var t := Next(CODE_ORDER, s, acts[0]);
      assert ChannelInv(s, c);
      StepKeepsInv(s, acts[0]);
      CachesNeverGoBack(t, acts[1..], c);
    }
  }

  /** A clean shutdown never trips the supervisor: if no worker ends on its own
      before the handle is dropped (step `k`), the die flag stays down in the whole
      run, whatever the aborted tasks and the supervisor do afterwards. */
  lemma {:induction false} CleanDropNeverTrips(s: State, acts: seq<Action>, k: nat)
    requires SupervisionInv(s.sup) && s.sup.endedEarly == {} && Legal(CODE_ORDER, s, acts)
    requires s.sup.dropped || (k < |acts| && acts[k].DropHandle? && forall i | 0 <= i < k :: !acts[i].End?)
    ensures !After(CODE_ORDER, s, acts).sup.died
    decreases |acts|
  {
    if acts != [] {
      SupervisionStep(s, acts[0]);
      CleanDropNeverTrips(Next(CODE_ORDER, s, acts[0]), acts[1..], if k == 0 then 0 else k - 1);
    }
  }

  // ---- What a run did to a channel -----------------------------------------------------------

  lemma {:induction false} RunSplits(o: Order, s: State, acts: seq<Action>, n: nat)
    requires Legal(o, s, acts) && n <= |acts|
    ensures Legal(o, s, acts[..n]) && Legal(o, After(o, s, acts[..n]), acts[n..])
    ensures After(o, s, acts) == After(o, After(o, s, acts[..n]), acts[n..])
    decreases |acts|
  {
    if n > 0 {
      RunSplits(o, Next(o, s, acts[0]), acts[1..], n - 1);
      assert acts[..n][1..] == acts[1..][..n - 1] && acts[1..][n - 1..] == acts[n..];
    }
  }

  /** The step ends a reload of the channel. */
  predicate EndsReload(a: Action, c: Channel) {
    a == Install(c) || a == ReloadFails(c)
  }

  /** What a reload has read stays with it until it ends. */
  lemma ReadIsHeld(o: Order, s: State, a: Action, c: Channel)
    requires Enabled(o, s, a) && Of(s, c).pc.HasRead? && !EndsReload(a, c)
    ensures NextChan(o, s, a, c).pc == Of(s, c).pc
  {
  }

  lemma {:induction false} HeldThenInstalled(o: Order, s: State, mid: seq<Action>, c: Channel)
    requires Of(s, c).pc.HasRead? && Legal(o, s, mid + [Install(c)]) && forall a <- mid :: !EndsReload(a, c)
    ensures Of(After(o, s, mid + [Install(c)]), c).cache == Of(s, c).pc.version
    decreases |mid|
  {
    if mid == [] {
      assert mid + [Install(c)] == [Install(c)];
      OneStep(o, s, Install(c));
    } else {
      var t := Next(o, s, mid[0]);
      assert (mid + [Install(c)])[1..] == mid[1..] + [Install(c)];
      assert mid[0] in mid && forall a <- mid[1..] :: a in mid;
      ReadIsHeld(o, s, mid[0], c);
      assert Of(t, c) == NextChan(o, s, mid[0], c);
      HeldThenInstalled(o, t, mid[1..], c);
    }
  }

  lemma ReloadInstalls(o: Order, u: State, mid: seq<Action>, c: Channel)
    requires Legal(o, u, [Read(c)] + mid + [Install(c)]) && forall a <- mid :: !EndsReload(a, c)
    ensures Of(After(o, u, [Read(c)] + mid + [Install(c)]), c).cache == Of(u, c).db
  {
    assert ([Read(c)] + mid + [Install(c)])[1..] == mid + [Install(c)];
    HeldThenInstalled(o, Next(o, u, Read(c)), mid, c);
  }

  lemma Cut(acts: seq<Action>, i: nat, j: nat)
    requires i < j < |acts|
    ensures acts[..j + 1][..i] == acts[..i]
    ensures acts[..j + 1][i..] == [acts[i]] + acts[i + 1..j] + [acts[j]]
  {
  }

  /** A reload that ends well leaves the cache with the version committed when it read,
      whatever was committed, bumped or delivered in between: in every run and under every
      order, `Read(c)` at step `i` and the `Install(c)` that ends that reload at step `j`. */
  lemma ReloadInstallsWhatItRead(o: Order, s: State, acts: seq<Action>, c: Channel, i: nat, j: nat)
    requires Legal(o, s, acts) && i < j < |acts| && acts[i] == Read(c) && acts[j] == Install(c)
    requires forall k | i < k < j :: !EndsReload(acts[k], c)
    ensures Legal(o, s, acts[..i]) && Legal(o, s, acts[..j + 1])
    ensures Of(After(o, s, acts[..j + 1]), c).cache == Of(After(o, s, acts[..i]), c).db
  {
    var mid := acts[i + 1..j];
    assert forall k | 0 <= k < |mid| :: mid[k] == acts[i + 1 + k];
    Cut(acts, i, j);
    RunSplits(o, s, acts, j + 1);
    RunSplits(o, s, acts[..j + 1], i);
    ReloadInstalls(o, After(o, s, acts[..i]), mid, c);
  }

  lemma OneStep(o: Order, s: State, a: Action)
    requires Enabled(o, s, a)
    ensures Legal(o, s, [a]) && After(o, s, [a]) == Next(o, s, a)
  {
    assert [a][1..] == [];
  }

  function Tick(a: Action, b: Action): nat {
    if a == b then 1 else 0
  }

  /** How often the run takes the step `a`. */
  function Count(acts: seq<Action>, a: Action): nat {
    if acts == [] then 0 else Tick(acts[0], a) + Count(acts[1..], a)
  }

  /** Without an install the cache does not change. */
  lemma {:induction false} OnlyInstallsChangeTheCache(o: Order, s: State, acts: seq<Action>, c: Channel)
    requires Legal(o, s, acts) && Install(c) !in acts
    ensures Of(After(o, s, acts), c).cache == Of(s, c).cache
    decreases |acts|
  {
    if acts != [] {
      assert acts[0] in acts && forall a <- acts[1..] :: a in acts;
      OnlyInstallsChangeTheCache(o, Next(o, s, acts[0]), acts[1..], c);
    }
  }

  lemma CommitStep(o: Order, s: State, a: Action, c: Channel)
    requires Enabled(o, s, a)
    ensures NextChan(o, s, a, c).db == Of(s, c).db + Tick(a, Commit(c)) + Tick(a, Write(c))
  {
  }

  lemma OwedStep(o: Order, s: State, a: Action, c: Channel)
    requires Enabled(o, s, a)
    ensures NextChan(o, s, a, c).owed + Tick(a, FollowUp(c)) + Tick(a, NotifyFails(c))
            == Of(s, c).owed + Tick(a, Write(c))
  {
  }

  /** The committed version counts the commits, and what is owed the writes not followed up. */
  lemma {:induction false} CommitsAreCounted(o: Order, s: State, acts: seq<Action>, c: Channel)
    requires Legal(o, s, acts)
    ensures var t := After(o, s, acts);
      && Of(t, c).db == Of(s, c).db + Count(acts, Commit(c)) + Count(acts, Write(c))
      && Of(t, c).owed + Count(acts, FollowUp(c)) + Count(acts, NotifyFails(c))
         == Of(s, c).owed + Count(acts, Write(c))
    decreases |acts|
  {
    if acts != [] {
      CommitStep(o, s, acts[0], c);
      OwedStep(o, s, acts[0], c);
      assert Of(Next(o, s, acts[0]), c) == NextChan(o, s, acts[0], c);
      CommitsAreCounted(o, Next(o, s, acts[0]), acts[1..], c);
    }
  }

  /** The step takes such a notification off the queue. */
  function Delivered(s: State, a: Action, n: Notification): nat {
    if a.Deliver? && s.link.session.queue != [] && s.link.session.queue[0] == n then 1 else 0
  }

  function Deliveries(o: Order, s: State, acts: seq<Action>, n: Notification): nat
    requires Legal(o, s, acts)
    decreases |acts|
  {
    if acts == [] then 0
    else Delivered(s, acts[0], n) + Deliveries(o, Next(o, s, acts[0]), acts[1..], n)
  }

  function Resyncs(acts: seq<Action>): nat {
    Count(acts, Listen) + Count(acts, Reopen)
  }

  lemma BumpCountStep(s: State, a: Action, c: Channel)
    requires Enabled(CODE_ORDER, s, a) && LinkInv(s.link)
    ensures NextChan(CODE_ORDER, s, a, c).notified == Of(s, c).notified + Delivered(s, a, On(c))
    ensures NextLink(CODE_ORDER, s.link, a).resyncs == s.link.resyncs + Tick(a, Listen) + Tick(a, Reopen)
  {
  }

  lemma {:induction false} BumpsAreCounted(s: State, acts: seq<Action>, c: Channel)
    requires Legal(CODE_ORDER, s, acts) && LinkInv(s.link)
    ensures var t := After(CODE_ORDER, s, acts);
      && Of(t, c).notified == Of(s, c).notified + Deliveries(CODE_ORDER, s, acts, On(c))
      && t.link.resyncs == s.link.resyncs + Resyncs(acts)
    decreases |acts|
  {
    if acts != [] {
      LinkStep(s, acts[0]);
      BumpCountStep(s, acts[0], c);
      assert Of(Next(CODE_ORDER, s, acts[0]), c) == NextChan(CODE_ORDER, s, acts[0], c);
      BumpsAreCounted(Next(CODE_ORDER, s, acts[0]), acts[1..], c);
    }
  }

  /** From the start: a channel has been bumped once for each connection that got that far
      and once for each of its notifications delivered, and for nothing else. */
  lemma BumpsFromStart(acts: seq<Action>, c: Channel)
    requires Legal(CODE_ORDER, INIT, acts)
    ensures var t := After(CODE_ORDER, INIT, acts);
      Of(t, c).bump + BumpsDue(t.link, c) == Resyncs(acts) + Deliveries(CODE_ORDER, INIT, acts, On(c))
  {
    RunsKeepInv(INIT, acts);
    BumpsAreCounted(INIT, acts, c);
    assert BumpInv(After(CODE_ORDER, INIT, acts), c);
  }

  function Queued(q: seq<Notification>, n: Notification): nat {
    if q == [] then 0 else (if q[0] == n then 1 else 0) + Queued(q[1..], n)
  }

  lemma {:induction false} QueuedConcat(p: seq<Notification>, q: seq<Notification>, n: Notification)
    ensures Queued(p + q, n) == Queued(p, n) + Queued(q, n)
  {
    if p == [] {
      assert p + q == q;
    } else {
      assert (p + q)[1..] == p[1..] + q;
      QueuedConcat(p[1..], q, n);
    }
  }

  lemma NotifyQueues(e: Session, m: Notification, n: Notification)
    ensures Queued(Notify(e, m).queue, n)
            == Queued(e.queue, n) + if e.up && e.listening && m == n then 1 else 0
  {
    QueuedConcat(e.queue, [m], n);
    assert [m][1..] == [];
  }

  predicate Sends(a: Action) {
    a.Commit? || a.FollowUp? || a.ForeignNotify?
  }

  function Said(a: Action): Notification
    requires Sends(a)
  {
    if a.ForeignNotify? then Foreign else On(a.c)
  }

  /** The step sends such a notification and the session takes it. */
  function Taken(s: State, a: Action, n: Notification): nat {
    if Sends(a) && Said(a) == n && s.link.session.up && s.link.session.listening then 1 else 0
  }

  /** Notifications lost with the end of a session: what was not yet buffered on this side when
      the connection broke, and the buffer when the session is given up. */
  function Dropped(s: State, a: Action, n: Notification): nat {
    var q := s.link.session.queue;
    if a.LoseSession? && a.keep <= |q| then Queued(q[a.keep..], n)
    else if a.ReceiveFails? || a.ListenFails? || a.Open? then Queued(q, n)
    else 0
  }

  /** What goes in comes out, is still there or is lost. */
  predicate Conserves(o: Order, s: State, a: Action, n: Notification)
    requires Enabled(o, s, a)
  {
    Queued(NextLink(o, s.link, a).session.queue, n) + Delivered(s, a, n) + Dropped(s, a, n)
    == Queued(s.link.session.queue, n) + Taken(s, a, n)
  }

  predicate Hangs(a: Action) {
    a.LoseSession? || a.ReceiveFails? || a.ListenFails? || a.Open?
  }

  lemma SendConserves(o: Order, s: State, a: Action, n: Notification)
    requires Enabled(o, s, a) && Sends(a)
    ensures Conserves(o, s, a, n)
  {
    NotifyQueues(s.link.session, Said(a), n);
  }

  lemma HangConserves(o: Order, s: State, a: Action, n: Notification)
    requires Enabled(o, s, a) && Hangs(a)
    ensures Conserves(o, s, a, n)
  {
    if a.LoseSession? {
      var q := s.link.session.queue;
      QueuedConcat(q[..a.keep], q[a.keep..], n);
      assert q[..a.keep] + q[a.keep..] == q;
    }
  }

  lemma OtherConserves(o: Order, s: State, a: Action, n: Notification)
    requires Enabled(o, s, a) && !Sends(a) && !Hangs(a) && !a.Deliver?
    ensures Conserves(o, s, a, n)
  {
    assert NextLink(o, s.link, a).session.queue == s.link.session.queue;
  }

  lemma StepConservesNotifications(o: Order, s: State, a: Action, n: Notification)
    requires Enabled(o, s, a)
    ensures Conserves(o, s, a, n)
  {
    if Sends(a) {
      SendConserves(o, s, a, n);
    } else if Hangs(a) {
      HangConserves(o, s, a, n);
    } else if !a.Deliver? {
      OtherConserves(o, s, a, n);
    }
  }

  ghost function Takings(o: Order, s: State, acts: seq<Action>, n: Notification): nat
    requires Legal(o, s, acts)
    decreases |acts|
  {
    if acts == [] then 0 else Taken(s, acts[0], n) + Takings(o, Next(o, s, acts[0]), acts[1..], n)
  }

  ghost function Losses(o: Order, s: State, acts: seq<Action>, n: Notification): nat
    requires Legal(o, s, acts)
    decreases |acts|
  {
    if acts == [] then 0 else Dropped(s, acts[0], n) + Losses(o, Next(o, s, acts[0]), acts[1..], n)
  }

  /** Over every run: each notification a session took was delivered, is still queued, or was
      lost with a session. */
  lemma {:induction false} NotificationsAreConserved(o: Order, s: State, acts: seq<Action>, n: Notification)
    requires Legal(o, s, acts)
    ensures Queued(After(o, s, acts).link.session.queue, n) + Deliveries(o, s, acts, n) + Losses(o, s, acts, n)
            == Queued(s.link.session.queue, n) + Takings(o, s, acts, n)
    decreases |acts|
  {
    if acts != [] {
      StepConservesNotifications(o, s, acts[0], n);
      NotificationsAreConserved(o, Next(o, s, acts[0]), acts[1..], n);
    }
  }

  /** After a failed receive the listener connects anew: it delivers nothing and resumes no
      session before its next LISTEN. */
  lemma {:induction false} FailedSessionConnectsAnew(s: State, acts: seq<Action>)
    requires Legal(CODE_ORDER, s, acts) && (s.link.listener.Connecting? || s.link.listener.Opened?)
    requires Listen !in acts
    ensures Deliver !in acts && Reopen !in acts && BumpSettings !in acts && BumpCatalog !in acts
    decreases |acts|
  {
    if acts != [] {
      assert acts == [acts[0]] + acts[1..];
      FailedSessionConnectsAnew(Next(CODE_ORDER, s, acts[0]), acts[1..]);
    }
  }

  lemma ReceiveFailureConnectsAnew(s: State, acts: seq<Action>)
    requires Enabled(CODE_ORDER, s, ReceiveFails) && Legal(CODE_ORDER, Next(CODE_ORDER, s, ReceiveFails), acts)
    requires Listen !in acts
    ensures Deliver !in acts && Reopen !in acts && BumpSettings !in acts && BumpCatalog !in acts
  {
    FailedSessionConnectsAnew(Next(CODE_ORDER, s, ReceiveFails), acts);
  }

  lemma {:induction false} BumpsOnlyGrow(o: Order, s: State, acts: seq<Action>, c: Channel)
    requires Legal(o, s, acts)
    ensures Of(s, c).bump <= Of(After(o, s, acts), c).bump
    decreases |acts|
  {
    if acts != [] {
      BumpsOnlyGrow(o, Next(o, s, acts[0]), acts[1..], c);
    }
  }

  lemma {:induction false} NothingToWakeFor(o: Order, s: State, acts: seq<Action>, c: Channel)
    requires o.markFirst && Legal(o, s, acts) && Of(s, c).seen == Of(s, c).bump
    requires Of(After(o, s, acts), c).bump == Of(s, c).bump
    ensures Wake(c) !in acts
    decreases |acts|
  {
    if acts != [] {
      var t := Next(o, s, acts[0]);
      BumpsOnlyGrow(o, t, acts[1..], c);
      NothingToWakeFor(o, t, acts[1..], c);
      assert acts == [acts[0]] + acts[1..];
    }
  }

  /** Bumps coalesce: one reload serves every bump up to its `borrow_and_update`, so that the
      subscriber does not wake again before the next one. */
  lemma OneReloadServesAll(s: State, acts: seq<Action>, c: Channel)
    requires Enabled(CODE_ORDER, s, Borrow(c)) && Legal(CODE_ORDER, Next(CODE_ORDER, s, Borrow(c)), acts)
    requires Of(After(CODE_ORDER, Next(CODE_ORDER, s, Borrow(c)), acts), c).bump == Of(s, c).bump
    ensures Wake(c) !in acts
  {
    NothingToWakeFor(CODE_ORDER, Next(CODE_ORDER, s, Borrow(c)), acts, c);
  }

  // ---- Deaths and verdicts ----------------------------------------------------------------

  /** The supervisor judges some report before the handle is dropped. */
  ghost predicate JudgedBeforeDrop(acts: seq<Action>) {
    exists d | 0 <= d < |acts| :: acts[d].Decide? && forall i | 0 <= i < d :: !acts[i].DropHandle?
  }

  lemma JudgedLater(acts: seq<Action>)
    requires acts != [] && !acts[0].Decide? && !acts[0].DropHandle?
    ensures JudgedBeforeDrop(acts) <==> JudgedBeforeDrop(acts[1..])
  {
    if JudgedBeforeDrop(acts) {
      var d :| 0 <= d < |acts| && acts[d].Decide? && forall i | 0 <= i < d :: !acts[i].DropHandle?;
      assert acts[1..][d - 1].Decide?;
    }
    if JudgedBeforeDrop(acts[1..]) {
      var d :| 0 <= d < |acts[1..]| && acts[1..][d].Decide? && forall i | 0 <= i < d :: !acts[1..][i].DropHandle?;
      assert acts[d + 1].Decide?;
      assert forall i | 0 < i < d + 1 :: acts[i] == acts[1..][i - 1];
    }
  }

  lemma {:induction false} VerdictLasts(s: State, acts: seq<Action>)
    requires Legal(CODE_ORDER, s, acts) && (s.sup.died || s.sup.stop)
    ensures After(CODE_ORDER, s, acts).sup.died == s.sup.died
    decreases |acts|
  {
    if acts != [] {
      VerdictLasts(Next(CODE_ORDER, s, acts[0]), acts[1..]);
    }
  }

  /** The die flag is raised exactly when a report is judged before the drop: receiving it
      in time is not enough. */
  lemma {:induction false} DiesExactlyWhenJudgedInTime(s: State, acts: seq<Action>)
    requires SupervisionInv(s.sup) && !s.sup.stop && !s.sup.died && Legal(CODE_ORDER, s, acts)
    ensures After(CODE_ORDER, s, acts).sup.died <==> JudgedBeforeDrop(acts)
    decreases |acts|
  {
    if acts != [] {
      var t := Next(CODE_ORDER, s, acts[0]);
      SupervisionStep(s, acts[0]);
      if acts[0].Decide? || acts[0].DropHandle? {
        VerdictLasts(t, acts[1..]);
      } else {
        JudgedLater(acts);
        DiesExactlyWhenJudgedInTime(t, acts[1..]);
      }
    }
  }

  // ---- The three orders ----------------------------------------------------------------

  ghost predicate Reachable(o: Order, s: State) {
    exists acts :: Legal(o, INIT, acts) && After(o, INIT, acts) == s
  }

  ghost predicate Guarantee(o: Order, s: State) {
    && (s.sup.died ==> s.sup.endedEarly != {})
    && (Quiescent(o, s) && !s.sup.stop && !s.sup.died ==>
          forall c :: Fresh(Of(s, c)) || Excused(Of(s, c)))
  }

  lemma {:induction false} Extends(o: Order, s: State, acts: seq<Action>, a: Action)
    requires Legal(o, s, acts) && Enabled(o, After(o, s, acts), a)
    ensures Legal(o, s, acts + [a]) && After(o, s, acts + [a]) == Next(o, After(o, s, acts), a)
    decreases |acts|
  {
    if acts == [] {
      assert ([] + [a])[1..] == [];
    } else {
      assert (acts + [a])[1..] == acts[1..] + [a];
      Extends(o, Next(o, s, acts[0]), acts[1..], a);
    }
  }

  lemma Reaches(o: Order, s: State, a: Action)
    requires Reachable(o, s) && Enabled(o, s, a)
    ensures Reachable(o, Next(o, s, a))
  {
    var acts :| Legal(o, INIT, acts) && After(o, INIT, acts) == s;
    Extends(o, INIT, acts, a);
  }

  /** A reload up to and including its read. */
  lemma ReachesRead(o: Order, s: State, c: Channel) returns (t: State)
    requires Reachable(o, s) && Enabled(o, s, Wake(c))
    ensures Reachable(o, t) && t.link == s.link && t.sup == s.sup
    ensures forall d | d != c :: Of(t, d) == Of(s, d)
    ensures var ch := Of(s, c);
      Of(t, c) == Marked(o, ch).(pc := HasRead(ch.db), lost := false, failed := false)
  {
    Reaches(o, s, Wake(c));
    t := Next(o, s, Wake(c));
    Reaches(o, t, Borrow(c));
    t := Next(o, t, Borrow(c));
    Reaches(o, t, Read(c));
    t := Next(o, t, Read(c));
  }

  /** One uninterrupted reload of a channel. */
  lemma ReachesReload(o: Order, s: State, c: Channel) returns (t: State)
    requires Reachable(o, s) && Enabled(o, s, Wake(c))
    ensures Reachable(o, t) && t.link == s.link && t.sup == s.sup
    ensures forall d | d != c :: Of(t, d) == Of(s, d)
    ensures var ch := Of(s, c);
      Of(t, c) == ch.(seen := ch.bump, pc := Waiting, cache := ch.db, lost := false, failed := false)
  {
    t := ReachesRead(o, s, c);
    Reaches(o, t, Install(c));
    t := Next(o, t, Install(c));
  }

  /** Start-up to just before the resync bumps. */
  lemma ReachesOpen(o: Order) returns (t: State)
    ensures Reachable(o, t)
    ensures t == INIT.(link := Link(Session(true, o.listenFirst, []),
                                    if o.listenFirst then BumpingSettings else Opened,
                                    if o.listenFirst then 1 else 0))
  {
    assert Legal(o, INIT, []) && After(o, INIT, []) == INIT;
    Reaches(o, INIT, Open);
    t := Next(o, INIT, Open);
    if o.listenFirst {
      Reaches(o, t, Listen);
      t := Next(o, t, Listen);
    }
  }

  /** Start-up through the resync bumps. */
  lemma ReachesBumps(o: Order) returns (t: State)
    ensures Reachable(o, t) && t.sup == INIT.sup
    ensures forall c :: Of(t, c) == NEW_CHANNEL.(bump := 1)
    ensures t.link == if o.listenFirst then Link(Session(true, true, []), Receiving, 1)
                      else Link(Session(true, false, []), Subscribing, 1)
  {
    t := ReachesOpen(o);
    Reaches(o, t, BumpSettings);
    t := Next(o, t, BumpSettings);
    Reaches(o, t, BumpCatalog);
    t := Next(o, t, BumpCatalog);
  }

  lemma ReachesHolding(o: Order, s: State) returns (t: State)
    requires Reachable(o, s) && s.sup.unreported == {ListenLoop} && s.sup.reports == []
    requires s.sup.supervisor.Watching?
    ensures Reachable(o, t) && t.sup.endedEarly == s.sup.endedEarly
    ensures t.sup.supervisor == Holding(ListenLoop) && t.sup.died == s.sup.died && t.sup.stop == s.sup.stop
  {
    Reaches(o, s, Report(ListenLoop));
    t := Next(o, s, Report(ListenLoop));
    assert t.sup.reports == [ListenLoop];
    Reaches(o, t, Receive);
    t := Next(o, t, Receive);
  }

  /** A lone unreported death is judged against the stop flag of the moment. */
  lemma ReachesVerdict(o: Order, s: State) returns (t: State)
    requires Reachable(o, s) && s.sup.unreported == {ListenLoop} && s.sup.reports == []
    requires s.sup.supervisor.Watching?
    ensures Reachable(o, t) && t.sup.endedEarly == s.sup.endedEarly
    ensures t.sup.died <==> s.sup.died || !s.sup.stop
  {
    t := ReachesHolding(o, s);
    Reaches(o, t, Decide);
    t := Next(o, t, Decide);
  }

  /** A worker's death can go unnoticed although its report was received before the drop:
      the drop lands between the receipt and the verdict. */
  lemma ReceivedInTimeYetUnnoticed() returns (t: State)
    ensures Reachable(CODE_ORDER, t) && t.sup.endedEarly == {ListenLoop} && !t.sup.died
    ensures t.sup.unreported == {} && t.sup.reports == [] && t.sup.supervisor.Watching?
  {
    var o := CODE_ORDER;
    assert Legal(o, INIT, []) && After(o, INIT, []) == INIT;
    Reaches(o, INIT, End(ListenLoop));
    t := Next(o, INIT, End(ListenLoop));
    assert t.sup == Supervision({ListenLoop}, {ListenLoop}, [], Watching, false, false, false, {ListenLoop});
    t := ReachesHeld(o, t);
    Reaches(o, t, DropHandle);
    t := Next(o, t, DropHandle);
    Reaches(o, t, Decide);
    t := Next(o, t, Decide);
  }

  lemma ReachesHeld(o: Order, s: State) returns (t: State)
    requires Reachable(o, s)
    requires s.sup == Supervision({ListenLoop}, {ListenLoop}, [], Watching, false, false, false, {ListenLoop})
    ensures Reachable(o, t)
    ensures t.sup == s.sup.(unreported := {}, supervisor := Holding(ListenLoop))
  {
    Reaches(o, s, Report(ListenLoop));
    t := Next(o, s, Report(ListenLoop));
    assert t.sup == s.sup.(unreported := {}, reports := [ListenLoop]);
    Reaches(o, t, Receive);
    t := Next(o, t, Receive);
  }

  /** Aborting before the flag is set makes a clean drop look like a death. */
  lemma StopFlagMustComeFirst(o: Order) returns (t: State)
    requires !o.stopFirst
    ensures Reachable(o, t) && t.sup.died && t.sup.endedEarly == {}
  {
    assert Legal(o, INIT, []) && After(o, INIT, []) == INIT;
    Reaches(o, INIT, DropHandle);
    t := Next(o, INIT, DropHandle);
    Reaches(o, t, Abort(ListenLoop));
    t := Next(o, t, Abort(ListenLoop));
    assert t.sup == Supervision({ListenLoop}, {ListenLoop}, [], Watching, true, false, false, {});
    t := ReachesVerdict(o, t);
  }

  /** Bumping before LISTEN loses a commit that falls between the two. */
  lemma ListenMustComeFirst(o: Order) returns (t: State)
    requires !o.listenFirst
    ensures Reachable(o, t) && StaleAtRest(t)
  {
    t := ReachesBumps(o);
    t := ReachesReload(o, t, Settings);
    t := ReachesReload(o, t, Catalog);
    Reaches(o, t, Commit(Settings));
    t := Next(o, t, Commit(Settings));
    Reaches(o, t, Listen);
    t := Next(o, t, Listen);
  }

  /** Receiving, one channel reloaded, the other about to install what it read. */
  lemma ReachesReading(o: Order) returns (t: State)
    requires !o.markFirst && o.listenFirst
    ensures Reachable(o, t)
    ensures t == State(Chan(0, 0, false, 1, 0, 0, HasRead(0), 0, false), NEW_CHANNEL.(bump := 1, seen := 1),
                       Link(Session(true, true, []), Receiving, 1), INIT.sup)
  {
    t := ReachesBumps(o);
    t := ReachesReload(o, t, Catalog);
    t := ReachesRead(o, t, Settings);
    assert Of(t, Settings) == t.settings && Of(t, Catalog) == t.catalog;
  }

  /** Marking after the reload swallows the bump of a commit the reload missed. */
  lemma MarkMustComeFirst(o: Order) returns (t: State)
    requires !o.markFirst && o.listenFirst
    ensures Reachable(o, t) && StaleAtRest(t)
  {
    t := ReachesReading(o);
    Reaches(o, t, Commit(Settings));
    t := Next(o, t, Commit(Settings));
    assert t.link.session.queue == [On(Settings)];
    Reaches(o, t, Deliver);
    t := Next(o, t, Deliver);
    Reaches(o, t, Install(Settings));
    t := Next(o, t, Install(Settings));
  }

  /** Connected, drained, everything seen, nobody dead, and still stale. */
  predicate StaleAtRest(s: State) {
    && s.link.listener.Receiving? && s.link.session == Session(true, true, [])
    && s.sup == INIT.sup
    && s.settings.pc.Waiting? && s.settings.owed == 0 && s.settings.seen == s.settings.bump
    && s.catalog.pc.Waiting? && s.catalog.owed == 0 && s.catalog.seen == s.catalog.bump
    && !Fresh(s.settings) && !Excused(s.settings)
  }

  lemma StaleAtRestBreaksGuarantee(o: Order, s: State)
    requires StaleAtRest(s)
    ensures !Guarantee(o, s)
  {
    assert Of(s, Settings) == s.settings;
    assert Quiescent(o, s);
  }

  lemma CodeOrderSuffices(s: State)
    requires Reachable(CODE_ORDER, s)
    ensures Guarantee(CODE_ORDER, s)
  {
    var acts :| Legal(CODE_ORDER, INIT, acts) && After(CODE_ORDER, INIT, acts) == s;
    RunsKeepInv(INIT, acts);
    if Quiescent(CODE_ORDER, s) && !s.sup.stop {
      QuiescentIsFreshOrFailing(s);
    }
  }

  /** The guarantee holds in every reachable state of every interleaving exactly
      when all three pairs are ordered the way the code orders them. */
  lemma OrdersAreExactlyWhatIsNeeded(o: Order)
    ensures (forall s | Reachable(o, s) :: Guarantee(o, s)) <==> o == CODE_ORDER
  {
    if o == CODE_ORDER {
      forall s | Reachable(o, s) ensures Guarantee(o, s) {
        CodeOrderSuffices(s);
      }
    } else {
      var t: State;
      if !o.stopFirst {
        t := StopFlagMustComeFirst(o);
      } else {
        if !o.listenFirst {
          t := ListenMustComeFirst(o);
        } else {
          t := MarkMustComeFirst(o);
        }
        StaleAtRestBreaksGuarantee(o, t);
      }
      assert Reachable(o, t) && !Guarantee(o, t);
    }
  }
}
