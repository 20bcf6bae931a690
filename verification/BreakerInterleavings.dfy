/**
 * The circuit breaker under concurrency: any number of threads run Allow, OnSuccess and OnFailure,
 * one atomic operation at a time, in any order.
 */
module BreakerInterleavings {
  import opened Prelude
  import opened CircuitBreaker

  /** How a running call got past the breaker, if it asked at all. */
  datatype Ticket =
    | WhileClosed // Allow saw the closed state
    | Probe       // Allow took a half-open slot
    | Unasked     // the caller reports an outcome without having been admitted

  type Edge = (State, State)

  datatype Pc =
    | Idle
    // Allow
    | AllowTop                   // about to load state
    | ExpireClock                // expireOpen, about to read the clock
    | ExpireCheck(now: int)      // about to load openedAt
    | ExpireSwap                 // about to swap open for half_open
    | TellHalfOpen               // won that swap, about to report it
    | SlotLoad                   // about to load halfInFlight
    | SlotSwap(seen: int)        // about to swap seen for seen + 1
    | Running(ticket: Ticket)    // the protected call is in progress
    // OnSuccess
    | SuccessTop(ticket: Ticket) // about to load state
    | SuccessReset               // closed: about to store 0 into failures
    | SuccessSwap(ticket: Ticket)
    | SuccessRelease(ticket: Ticket)
    | SuccessClear               // about to store 0 into failures
    | TellClosed
    // OnFailure
    | FailureTop(ticket: Ticket) // about to load state
    | FailureCount               // closed: about to add 1 to failures
    | FailureTrip                // about to swap closed for open
    | FailureRelease(ticket: Ticket)
    | FailureReopen              // about to swap half_open for open
    | StampClock(from: State)    // won a swap to open, about to read the clock
    | StampStore(from: State, now: int)
    | TellOpen(from: State)

  /** What the threads share: the clock, the atomic fields, and history counters. */
  datatype Shared = Shared(
    clock: int,
    f: Fields,
    admitted: nat,            // calls of Allow answered true
    leaked: nat,              // probes that finished without giving their slot back
    stray: nat,               // slots given back by calls that were not probes
    changes: multiset<Edge>,  // state changes made
    reports: multiset<Edge>)  // state changes reported to onTransition

  datatype World = World(m: Shared, threads: map<nat, Pc>)

  datatype Action =
    | Tick(elapsed: nat)
    | Ask(t: nat)                // an idle thread calls Allow
    | Intrude(t: nat)            // an idle thread is about to report without asking
    | Finish(t: nat, good: bool) // a running call calls OnSuccess or OnFailure
    | Run(t: nat)                // the thread executes its next atomic operation

  function At(w: World, t: nat): Pc {
    if t in w.threads then w.threads[t] else Idle
  }

  predicate Enabled(w: World, a: Action) {
    match a
    case Tick(_) => true
    case Ask(t) => At(w, t).Idle?
    case Intrude(t) => At(w, t).Idle?
    case Finish(t, _) => At(w, t).Running?
    case Run(t) => !At(w, t).Idle? && !At(w, t).Running?
  }

  function Next(o: Options, w: World, a: Action): World
    requires Enabled(w, a)
  {
    match a
    case Tick(d) => w.(m := w.m.(clock := w.m.clock + d))
    case Ask(t) => w.(threads := w.threads[t := AllowTop])
    case Intrude(t) => w.(threads := w.threads[t := Running(Unasked)])
    case Finish(t, good) =>
      var ticket := At(w, t).ticket;
      w.(threads := w.threads[t := if good then SuccessTop(ticket) else FailureTop(ticket)])
    case Run(t) =>
      var (m, pc) := Operate(o, w.m, At(w, t));
      World(m, w.threads[t := pc])
  }

  function Change(m: Shared, to: State): Shared {
    m.(f := m.f.(state := to), changes := m.changes + multiset{(m.f.state, to)})
  }

  function Report(m: Shared, from: State, to: State): Shared {
    m.(reports := m.reports + multiset{(from, to)})
  }

  function Release(m: Shared, ticket: Ticket): Shared {
    m.(f := m.f.(halfInFlight := m.f.halfInFlight - 1),
       stray := if ticket == Probe then m.stray else m.stray + 1)
  }

  /** A call reports while the breaker is closed or open: a probe's slot is not given back. */
  function Keep(m: Shared, ticket: Ticket): Shared {
    m.(leaked := if ticket == Probe then m.leaked + 1 else m.leaked)
  }

  /** The atomic operation at program point `pc`: its effect, and where the thread stands next. */
  function Operate(o: Options, m: Shared, pc: Pc): (Shared, Pc)
    requires !pc.Idle? && !pc.Running?
  {
    match pc
    case AllowTop => (
      match m.f.state
      case StateClosed => (m.(admitted := m.admitted + 1), Running(WhileClosed))
      case StateOpen => (m, ExpireClock)
      case StateHalfOpen => (m, SlotLoad))
    case ExpireClock => (m, ExpireCheck(m.clock))
    case ExpireCheck(now) => (m, if now - m.f.openedAt < o.openTimeout then Idle else ExpireSwap)
    case ExpireSwap =>
      if m.f.state == StateOpen then (Change(m, StateHalfOpen), TellHalfOpen) else (m, AllowTop)
    case TellHalfOpen => (Report(m, StateOpen, StateHalfOpen), AllowTop)
    case SlotLoad => (m, if m.f.halfInFlight >= o.halfOpenMax then Idle else SlotSwap(m.f.halfInFlight))
    case SlotSwap(seen) =>
      if m.f.halfInFlight == seen then
        (m.(f := m.f.(halfInFlight := seen + 1), admitted := m.admitted + 1), Running(Probe))
      else (m, SlotLoad)
    case SuccessTop(ticket) => (
      match m.f.state
      case StateClosed => (Keep(m, ticket), SuccessReset)
      case StateHalfOpen => (m, SuccessSwap(ticket))
      case StateOpen => (Keep(m, ticket), Idle))
    case SuccessReset => (m.(f := m.f.(failures := 0)), Idle)
    case SuccessSwap(ticket) =>
      if m.f.state == StateHalfOpen then (Change(m, StateClosed), SuccessRelease(ticket))
      else (m, SuccessTop(ticket))
    case SuccessRelease(ticket) => (Release(m, ticket), SuccessClear)
    case SuccessClear => (m.(f := m.f.(failures := 0)), TellClosed)
    case TellClosed => (Report(m, StateHalfOpen, StateClosed), Idle)
    case FailureTop(ticket) => (
      match m.f.state
      case StateClosed => (Keep(m, ticket), FailureCount)
      case StateHalfOpen => (m, FailureRelease(ticket))
      case StateOpen => (Keep(m, ticket), Idle))
    case FailureCount =>
      (m.(f := m.f.(failures := m.f.failures + 1)),
       if m.f.failures + 1 < o.failureThreshold then Idle else FailureTrip)
    case FailureTrip =>
      if m.f.state == StateClosed then (Change(m, StateOpen), StampClock(StateClosed)) else (m, Idle)
    case FailureRelease(ticket) => (Release(m, ticket), FailureReopen)
    case FailureReopen =>
      if m.f.state == StateHalfOpen then (Change(m, StateOpen), StampClock(StateHalfOpen)) else (m, Idle)
    case StampClock(from) => (m, StampStore(from, m.clock))
    case StampStore(from, now) => (m.(f := m.f.(openedAt := now)), TellOpen(from))
    case TellOpen(from) => (Report(m, from, StateOpen), Idle)
  }

  ghost predicate Steps(o: Options, w: World, w': World) {
    exists a :: Enabled(w, a) && w' == Next(o, w, a)
  }

  ghost predicate IsRun(o: Options, r: seq<World>) {
    && |r| > 0
    && forall i | 0 <= i < |r| - 1 :: Steps(o, r[i], r[i + 1])
  }

  /** A breaker just built by NewWithLog, which has reported its initial state once. */
  function Fresh(clock: int): World {
    World(Shared(clock, Fields(StateClosed, 0, 0, 0), 0, 0, 0, multiset{}, multiset{}), map[])
  }

  // ---- probe slots ----

  /** Threads whose half-open slot is still taken on their behalf. */
  predicate HoldsSlot(pc: Pc) {
    || pc == Running(Probe) || pc == SuccessTop(Probe) || pc == SuccessSwap(Probe)
    || pc == SuccessRelease(Probe) || pc == FailureTop(Probe) || pc == FailureRelease(Probe)
  }

  function Outstanding(w: World): set<nat> {
    Those(w.threads, HoldsSlot)
  }

  /** The exact account of the slot counter, and its ceiling. */
  ghost predicate SlotsAccounted(o: Options, w: World) {
    && w.m.f.halfInFlight == |Outstanding(w)| + w.m.leaked - w.m.stray
    && w.m.f.halfInFlight <= o.halfOpenMax
    && forall t | t in w.threads && w.threads[t].SlotSwap? :: w.threads[t].seen < o.halfOpenMax
  }

  function One(b: bool): int { if b then 1 else 0 }

  lemma OperationKeepsSlots(o: Options, m: Shared, pc: Pc)
    requires !pc.Idle? && !pc.Running?
    ensures var (m', pc') := Operate(o, m, pc);
            m'.f.halfInFlight - m.f.halfInFlight
            == One(HoldsSlot(pc')) - One(HoldsSlot(pc)) + (m'.leaked - m.leaked) - (m'.stray - m.stray)
  {
  }

  lemma OperationKeepsCeiling(o: Options, m: Shared, pc: Pc)
    requires !pc.Idle? && !pc.Running? && m.f.halfInFlight <= o.halfOpenMax
    requires pc.SlotSwap? ==> pc.seen < o.halfOpenMax
    ensures var (m', pc') := Operate(o, m, pc);
            m'.f.halfInFlight <= o.halfOpenMax && (pc'.SlotSwap? ==> pc'.seen < o.halfOpenMax)
  {
  }

  lemma StepKeepsSlots(o: Options, w: World, a: Action)
    requires o.Valid() && SlotsAccounted(o, w) && Enabled(w, a)
    ensures SlotsAccounted(o, Next(o, w, a))
  {
    var w' := Next(o, w, a);
    if !a.Tick? {
      Recount(w.threads, a.t, At(w', a.t), HoldsSlot);
    }
    if a.Run? {
      OperationKeepsSlots(o, w.m, At(w, a.t));
      OperationKeepsCeiling(o, w.m, At(w, a.t));
    }
  }

  lemma {:induction false} RunKeepsSlots(o: Options, r: seq<World>, i: nat)
    requires o.Valid() && IsRun(o, r) && r[0] == Fresh(r[0].m.clock) && i < |r|
    ensures SlotsAccounted(o, r[i])
  {
    if i == 0 {
      assert Outstanding(r[0]) == {};
    } else {
      RunKeepsSlots(o, r, i - 1);
      assert Steps(o, r[i - 1], r[i - 1 + 1]);
      var a :| Enabled(r[i - 1], a) && r[i] == Next(o, r[i - 1], a);
      StepKeepsSlots(o, r[i - 1], a);
    }
  }

  /**
   * In every interleaving, whatever callers do: halfInFlight never exceeds HalfOpenMax, and the
   * probes still out number at most HalfOpenMax plus the releases made by calls that were no probes.
   */
  lemma ProbesBounded(o: Options, r: seq<World>, i: nat)
    requires o.Valid() && IsRun(o, r) && r[0] == Fresh(r[0].m.clock) && i < |r|
    ensures r[i].m.f.halfInFlight <= o.halfOpenMax
    ensures |Outstanding(r[i])| <= o.halfOpenMax + r[i].m.stray
  {
    RunKeepsSlots(o, r, i);
  }

  // ---- state changes and their reports ----

  /** The arrows of the documented state diagram. */
  predicate Legal(e: Edge) {
    match e.0
    case StateClosed => e.1 == StateOpen
    case StateOpen => e.1 == StateHalfOpen
    case StateHalfOpen => e.1 != StateHalfOpen
  }

  /** The change a thread has made and has yet to report. */
  function Debt(pc: Pc): Option<Edge> {
    match pc
    case TellHalfOpen => Some((StateOpen, StateHalfOpen))
    case SuccessRelease(_) => Some((StateHalfOpen, StateClosed))
    case SuccessClear => Some((StateHalfOpen, StateClosed))
    case TellClosed => Some((StateHalfOpen, StateClosed))
    case StampClock(from) => Some((from, StateOpen))
    case StampStore(from, _) => Some((from, StateOpen))
    case TellOpen(from) => Some((from, StateOpen))
    case _ => None
  }

  function Owing(w: World, e: Edge): set<nat> {
    Those(w.threads, pc => Debt(pc) == Some(e))
  }

  ghost predicate ChangesReported(w: World) {
    && (forall e: Edge :: w.m.changes[e] == w.m.reports[e] + |Owing(w, e)|)
    && (forall e | e in w.m.changes :: Legal(e))
  }

  /** An operation makes one legal change and owes its report, or pays such a debt, or does neither. */
  lemma OperationOwes(o: Options, m: Shared, pc: Pc)
    requires !pc.Idle? && !pc.Running?
    ensures var (m', pc') := Operate(o, m, pc);
            if m'.f.state != m.f.state then
              var e := (m.f.state, m'.f.state);
              && Legal(e) && Debt(pc) == None && Debt(pc') == Some(e)
              && m'.changes == m.changes + multiset{e} && m'.reports == m.reports
            else if pc.TellHalfOpen? || pc.TellClosed? || pc.TellOpen? then
              && Debt(pc).Some? && Debt(pc') == None
              && m'.changes == m.changes && m'.reports == m.reports + multiset{Debt(pc).value}
            else Debt(pc') == Debt(pc) && m'.changes == m.changes && m'.reports == m.reports
  {
  }

  lemma StepKeepsReportsOf(o: Options, w: World, a: Action, e: Edge)
    requires w.m.changes[e] == w.m.reports[e] + |Owing(w, e)| && Enabled(w, a)
    ensures var w' := Next(o, w, a); w'.m.changes[e] == w'.m.reports[e] + |Owing(w', e)|
  {
    var w' := Next(o, w, a);
    if !a.Tick? {
      Recount(w.threads, a.t, At(w', a.t), pc => Debt(pc) == Some(e));
    }
    if a.Run? {
      OperationOwes(o, w.m, At(w, a.t));
    }
  }

  lemma StepKeepsReports(o: Options, w: World, a: Action)
    requires ChangesReported(w) && Enabled(w, a)
    ensures ChangesReported(Next(o, w, a))
    ensures Next(o, w, a).m.f.state != w.m.f.state ==> Legal((w.m.f.state, Next(o, w, a).m.f.state))
  {
    var w' := Next(o, w, a);
    forall e: Edge
      ensures w'.m.changes[e] == w'.m.reports[e] + |Owing(w', e)|
    {
      StepKeepsReportsOf(o, w, a, e);
    }
    if a.Run? {
      OperationOwes(o, w.m, At(w, a.t));
    }
  }

  /**
   * The state moves only along closed -> open -> half_open -> {closed, open}, and every change is
   * reported exactly once, by the thread whose swap made it: for each kind of change, those made
   * are those reported plus those some thread is still about to report.
   */
  lemma {:induction false} EveryChangeReportedOnce(o: Options, r: seq<World>, i: nat)
    requires IsRun(o, r) && r[0] == Fresh(r[0].m.clock) && i < |r|
    ensures ChangesReported(r[i])
    ensures i > 0 && r[i].m.f.state != r[i - 1].m.f.state ==> Legal((r[i - 1].m.f.state, r[i].m.f.state))
  {
    if i == 0 {
      assert forall e: Edge :: Owing(r[0], e) == {};
    } else {
      EveryChangeReportedOnce(o, r, i - 1);
      assert Steps(o, r[i - 1], r[i - 1 + 1]);
      var a :| Enabled(r[i - 1], a) && r[i] == Next(o, r[i - 1], a);
      StepKeepsReports(o, r[i - 1], a);
    }
  }

  // ---- when no probe can get through any more ----

  /** Program points that cannot free a slot, take a free one, or leave half_open. */
  predicate Harmless(pc: Pc) {
    || pc.Idle? || pc.AllowTop? || pc.ExpireClock? || pc.ExpireCheck? || pc.ExpireSwap?
    || pc.TellHalfOpen? || pc.SlotLoad? || pc.SuccessReset? || pc.SuccessClear? || pc.TellClosed?
    || pc.FailureCount? || pc.FailureTrip? || pc.StampClock? || pc.StampStore? || pc.TellOpen?
  }

  /** Half-open with every slot taken and no call left that could give one back. */
  predicate Wedged(o: Options, w: World) {
    && w.m.f.state == StateHalfOpen
    && w.m.f.halfInFlight >= o.halfOpenMax
    && forall t | t in w.threads :: Harmless(w.threads[t])
  }

  /** Steps of callers that ask before they report. */
  ghost predicate PoliteSteps(o: Options, w: World, w': World) {
    exists a :: Enabled(w, a) && !a.Intrude? && w' == Next(o, w, a)
  }

  ghost predicate IsPoliteRun(o: Options, r: seq<World>) {
    && |r| > 0
    && forall i | 0 <= i < |r| - 1 :: PoliteSteps(o, r[i], r[i + 1])
  }

  lemma HarmlessOperation(o: Options, m: Shared, pc: Pc)
    requires !pc.Idle? && Harmless(pc)
    requires m.f.state == StateHalfOpen && m.f.halfInFlight >= o.halfOpenMax
    ensures var (m', pc') := Operate(o, m, pc);
            && Harmless(pc') && m'.admitted == m.admitted
            && m'.f.state == StateHalfOpen && m'.f.halfInFlight == m.f.halfInFlight
  {
  }

  /** A wedged breaker stays wedged, and denies every call from then on, for good. */
  lemma {:induction false} WedgedForever(o: Options, r: seq<World>, i: nat)
    requires IsPoliteRun(o, r) && Wedged(o, r[0]) && i < |r|
    ensures Wedged(o, r[i]) && r[i].m.admitted == r[0].m.admitted
  {
    if i > 0 {
      WedgedForever(o, r, i - 1);
      assert PoliteSteps(o, r[i - 1], r[i - 1 + 1]);
      var a :| Enabled(r[i - 1], a) && !a.Intrude? && r[i] == Next(o, r[i - 1], a);
      if a.Run? && a.t in r[i - 1].threads {
        HarmlessOperation(o, r[i - 1].m, r[i - 1].threads[a.t]);
      }
    }
  }

  /** The operations of an Allow that meets no other thread: five to find the cool-down over, three to take a slot. */
  const LONGEST_ANSWER: nat := 8

  /** Thread `t` runs on alone until its call starts or it has been answered, for at most `n` operations. */
  function Alone(o: Options, w: World, t: nat, n: nat): World
    decreases n
  {
    if n == 0 || !Enabled(w, Run(t)) then w else Alone(o, Next(o, w, Run(t)), t, n - 1)
  }

  /**
   * Exactly when that happens: once the breaker is half-open, or open with the cool-down over, and no
   * other thread can still take a slot or give one back, the next call to ask is let through if and only
   * if fewer slots were leaked than HalfOpenMax plus the stray releases. Otherwise it leaves a wedge.
   */
  lemma ProbeAdmittedIff(o: Options, r: seq<World>, i: nat, t: nat)
    requires o.Valid() && IsRun(o, r) && r[0] == Fresh(r[0].m.clock) && i < |r|
    requires r[i].m.f.state == StateHalfOpen || CooledDown(o, r[i].m)
    requires At(r[i], t) == AllowTop && forall u | u in r[i].threads :: Harmless(r[i].threads[u])
    ensures var decided := Alone(o, r[i], t, LONGEST_ANSWER);
            if r[i].m.leaked < o.halfOpenMax + r[i].m.stray then At(decided, t) == Running(Probe)
            else At(decided, t) == Idle && Wedged(o, decided)
  {
    NoneOutstanding(o, r, i);
    AskedAlone(o, r[i], t, LONGEST_ANSWER);
  }

  /** When no call is left that holds a slot, what is still taken was leaked. */
  lemma NoneOutstanding(o: Options, r: seq<World>, i: nat)
    requires o.Valid() && IsRun(o, r) && r[0] == Fresh(r[0].m.clock) && i < |r|
    requires forall u | u in r[i].threads :: Harmless(r[i].threads[u])
    ensures r[i].m.f.halfInFlight == r[i].m.leaked - r[i].m.stray
  {
    RunKeepsSlots(o, r, i);
    assert Outstanding(r[i]) == {};
  }

  /** The same, thread by thread: the shared state and the program point after `n` operations alone. */
  function RunOn(o: Options, m: Shared, pc: Pc, n: nat): (Shared, Pc)
    decreases n
  {
    if n == 0 || pc.Idle? || pc.Running? then (m, pc)
    else
      var (m', pc') := Operate(o, m, pc);
      RunOn(o, m', pc', n - 1)
  }

  lemma {:induction false} AloneIsRunOn(o: Options, w: World, t: nat, n: nat)
    ensures var (m, pc) := RunOn(o, w.m, At(w, t), n);
            && Alone(o, w, t, n).m == m && At(Alone(o, w, t, n), t) == pc
            && forall u | u != t :: At(Alone(o, w, t, n), u) == At(w, u)
    decreases n
  {
    if n > 0 && Enabled(w, Run(t)) {
      AloneIsRunOn(o, Next(o, w, Run(t)), t, n - 1);
    }
  }

  lemma Op(o: Options, m: Shared, pc: Pc, m': Shared, pc': Pc, n: nat)
    requires !pc.Idle? && !pc.Running? && Operate(o, m, pc) == (m', pc')
    ensures RunOn(o, m, pc, n + 1) == RunOn(o, m', pc', n)
  {
  }

  predicate CooledDown(o: Options, m: Shared) {
    m.f.state == StateOpen && m.clock - m.f.openedAt >= o.openTimeout
  }

  lemma Expires(o: Options, m: Shared, n: nat)
    requires CooledDown(o, m)
    ensures RunOn(o, m, AllowTop, n + 5) ==
            RunOn(o, Report(Change(m, StateHalfOpen), StateOpen, StateHalfOpen), AllowTop, n)
  {
    var changed := Change(m, StateHalfOpen);
    Op(o, m, AllowTop, m, ExpireClock, n + 4);
    Op(o, m, ExpireClock, m, ExpireCheck(m.clock), n + 3);
    Op(o, m, ExpireCheck(m.clock), m, ExpireSwap, n + 2);
    Op(o, m, ExpireSwap, changed, TellHalfOpen, n + 1);
    Op(o, changed, TellHalfOpen, Report(changed, StateOpen, StateHalfOpen), AllowTop, n);
  }

  lemma TakesSlot(o: Options, m: Shared, n: nat)
    requires m.f.state == StateHalfOpen
    ensures var taken := m.(f := m.f.(halfInFlight := m.f.halfInFlight + 1), admitted := m.admitted + 1);
            RunOn(o, m, AllowTop, n + 3) ==
            if m.f.halfInFlight < o.halfOpenMax then (taken, Running(Probe)) else (m, Idle)
  {
    Op(o, m, AllowTop, m, SlotLoad, n + 2);
    if m.f.halfInFlight < o.halfOpenMax {
      var taken := m.(f := m.f.(halfInFlight := m.f.halfInFlight + 1), admitted := m.admitted + 1);
      Op(o, m, SlotLoad, m, SlotSwap(m.f.halfInFlight), n + 1);
      Op(o, m, SlotSwap(m.f.halfInFlight), taken, Running(Probe), n);
    } else {
      Op(o, m, SlotLoad, m, Idle, n + 1);
    }
  }

  lemma AskedAlone(o: Options, w: World, t: nat, n: nat)
    requires w.m.f.state == StateHalfOpen || CooledDown(o, w.m)
    requires At(w, t) == AllowTop && forall u | u in w.threads :: Harmless(w.threads[u])
    requires n >= 8
    ensures var decided := Alone(o, w, t, n);
            if w.m.f.halfInFlight < o.halfOpenMax then At(decided, t) == Running(Probe)
            else At(decided, t) == Idle && Wedged(o, decided)
  {
    AloneIsRunOn(o, w, t, n);
    if w.m.f.state == StateOpen {
      Expires(o, w.m, n - 5);
      TakesSlot(o, Report(Change(w.m, StateHalfOpen), StateOpen, StateHalfOpen), n - 8);
    } else {
      TakesSlot(o, w.m, n - 3);
    }
    OthersHarmless(w, Alone(o, w, t, n), t);
  }

  lemma OthersHarmless(w: World, w': World, t: nat)
    requires forall u | u in w.threads :: Harmless(w.threads[u])
    requires forall u | u != t :: At(w', u) == At(w, u)
    ensures At(w', t).Idle? ==> forall u | u in w'.threads :: Harmless(w'.threads[u])
  {
    forall u | u in w'.threads && At(w', t).Idle?
      ensures Harmless(w'.threads[u])
    {
      assert w'.threads[u] == At(w', u);
    }
  }

  // ---- calls that meet no other ----

  /** An Allow that meets no other call is the Allow of the breaker used one call at a time. */
  lemma AllowAlone(o: Options, w: World, t: nat)
    requires At(w, t) == AllowTop
    ensures var w' := Alone(o, w, t, LONGEST_ANSWER);
            && (w'.m.f, At(w', t).Running?) == Allowed(o, w.m.f, w.m.clock)
            && (At(w', t).Running? || At(w', t).Idle?)
  {
    AloneIsRunOn(o, w, t, LONGEST_ANSWER);
    AllowRunOn(o, w.m, LONGEST_ANSWER);
  }

  lemma AllowRunOn(o: Options, m: Shared, n: nat)
    requires n >= 8
    ensures var (m', pc) := RunOn(o, m, AllowTop, n);
            (m'.f, pc.Running?) == Allowed(o, m.f, m.clock) && (pc.Running? || pc.Idle?)
  {
    if m.f.state == StateClosed {
      Op(o, m, AllowTop, m.(admitted := m.admitted + 1), Running(WhileClosed), n - 1);
    } else if m.f.state == StateHalfOpen {
      TakesSlot(o, m, n - 3);
    } else if CooledDown(o, m) {
      Expires(o, m, n - 5);
      TakesSlot(o, Report(Change(m, StateHalfOpen), StateOpen, StateHalfOpen), n - 8);
    } else {
      Op(o, m, AllowTop, m, ExpireClock, n - 1);
      Op(o, m, ExpireClock, m, ExpireCheck(m.clock), n - 2);
      Op(o, m, ExpireCheck(m.clock), m, Idle, n - 3);
    }
  }

  /** So is a report of success. */
  lemma SuccessAlone(o: Options, w: World, t: nat, ticket: Ticket)
    requires At(w, t) == SuccessTop(ticket)
    ensures var w' := Alone(o, w, t, LONGEST_ANSWER); w'.m.f == Succeeded(w.m.f) && At(w', t).Idle?
  {
    AloneIsRunOn(o, w, t, LONGEST_ANSWER);
    SuccessRunOn(o, w.m, ticket, LONGEST_ANSWER);
  }

  lemma SuccessRunOn(o: Options, m: Shared, ticket: Ticket, n: nat)
    requires n >= 8
    ensures var (m', pc) := RunOn(o, m, SuccessTop(ticket), n); m'.f == Succeeded(m.f) && pc.Idle?
  {
    var kept := Keep(m, ticket);
    if m.f.state == StateClosed {
      Op(o, m, SuccessTop(ticket), kept, SuccessReset, n - 1);
      Op(o, kept, SuccessReset, kept.(f := kept.f.(failures := 0)), Idle, n - 2);
    } else if m.f.state == StateOpen {
      Op(o, m, SuccessTop(ticket), kept, Idle, n - 1);
    } else {
      var closed := Change(m, StateClosed);
      var released := Release(closed, ticket);
      var cleared := released.(f := released.f.(failures := 0));
      Op(o, m, SuccessTop(ticket), m, SuccessSwap(ticket), n - 1);
      Op(o, m, SuccessSwap(ticket), closed, SuccessRelease(ticket), n - 2);
      Op(o, closed, SuccessRelease(ticket), released, SuccessClear, n - 3);
      Op(o, released, SuccessClear, cleared, TellClosed, n - 4);
      Op(o, cleared, TellClosed, Report(cleared, StateHalfOpen, StateClosed), Idle, n - 5);
    }
  }

  /** And a report of failure. */
  lemma FailureAlone(o: Options, w: World, t: nat, ticket: Ticket)
    requires At(w, t) == FailureTop(ticket)
    ensures var w' := Alone(o, w, t, LONGEST_ANSWER); w'.m.f == Failed(o, w.m.f, w.m.clock) && At(w', t).Idle?
  {
    AloneIsRunOn(o, w, t, LONGEST_ANSWER);
    FailureRunOn(o, w.m, ticket, LONGEST_ANSWER);
  }

  lemma FailureRunOn(o: Options, m: Shared, ticket: Ticket, n: nat)
    requires n >= 8
    ensures var (m', pc) := RunOn(o, m, FailureTop(ticket), n); m'.f == Failed(o, m.f, m.clock) && pc.Idle?
  {
    if m.f.state == StateOpen {
      Op(o, m, FailureTop(ticket), Keep(m, ticket), Idle, n - 1);
    } else if m.f.state == StateClosed {
      CountsFailure(o, m, ticket, n);
    } else {
      FailsProbe(o, m, ticket, n);
    }
  }

  lemma CountsFailure(o: Options, m: Shared, ticket: Ticket, n: nat)
    requires m.f.state == StateClosed && n >= 8
    ensures var (m', pc) := RunOn(o, m, FailureTop(ticket), n); m'.f == Failed(o, m.f, m.clock) && pc.Idle?
  {
    var kept := Keep(m, ticket);
    var counted := kept.(f := kept.f.(failures := kept.f.failures + 1));
    Op(o, m, FailureTop(ticket), kept, FailureCount, n - 1);
    if counted.f.failures < o.failureThreshold {
      Op(o, kept, FailureCount, counted, Idle, n - 2);
    } else {
      var tripped := Change(counted, StateOpen);
      Op(o, kept, FailureCount, counted, FailureTrip, n - 2);
      Op(o, counted, FailureTrip, tripped, StampClock(StateClosed), n - 3);
      Stamps(o, tripped, StateClosed, n - 6);
    }
  }

  lemma FailsProbe(o: Options, m: Shared, ticket: Ticket, n: nat)
    requires m.f.state == StateHalfOpen && n >= 8
    ensures var (m', pc) := RunOn(o, m, FailureTop(ticket), n); m'.f == Failed(o, m.f, m.clock) && pc.Idle?
  {
    var released := Release(m, ticket);
    var tripped := Change(released, StateOpen);
    Op(o, m, FailureTop(ticket), m, FailureRelease(ticket), n - 1);
    Op(o, m, FailureRelease(ticket), released, FailureReopen, n - 2);
    Op(o, released, FailureReopen, tripped, StampClock(StateHalfOpen), n - 3);
    Stamps(o, tripped, StateHalfOpen, n - 6);
  }

  lemma Stamps(o: Options, m: Shared, from: State, n: nat)
    ensures var stamped := m.(f := m.f.(openedAt := m.clock));
            RunOn(o, m, StampClock(from), n + 3) == (Report(stamped, from, StateOpen), Idle)
  {
    var stamped := m.(f := m.f.(openedAt := m.clock));
    Op(o, m, StampClock(from), m, StampStore(from, m.clock), n + 2);
    Op(o, m, StampStore(from, m.clock), stamped, TellOpen(from), n + 1);
    Op(o, stamped, TellOpen(from), Report(stamped, from, StateOpen), Idle, n);
  }

  /** Exactly when a thread's operation lets its call start, and when it is the last of an Allow or a report. */
  lemma LeavesIff(o: Options, w: World, t: nat)
    requires Enabled(w, Run(t))
    ensures var pc, f, next := At(w, t), w.m.f, At(Next(o, w, Run(t)), t);
            && (next.Running? <==>
                || (pc.AllowTop? && f.state == StateClosed)
                || (pc.SlotSwap? && f.halfInFlight == pc.seen))
            && (next.Idle? <==>
                || (pc.ExpireCheck? && pc.now - f.openedAt < o.openTimeout)
                || (pc.SlotLoad? && f.halfInFlight >= o.halfOpenMax)
                || ((pc.SuccessTop? || pc.FailureTop?) && f.state == StateOpen)
                || (pc.FailureCount? && f.failures + 1 < o.failureThreshold)
                || (pc.FailureTrip? && f.state != StateClosed)
                || (pc.FailureReopen? && f.state != StateHalfOpen)
                || pc.SuccessReset? || pc.TellClosed? || pc.TellOpen?)
  {
  }

  /** A swap that is lost changes nothing, and its thread looks again; only a failed trip or reopening gives up. */
  lemma LostSwapRetries(o: Options, w: World, t: nat)
    requires Enabled(w, Run(t))
    ensures var pc, w' := At(w, t), Next(o, w, Run(t));
            && (pc.ExpireSwap? && w.m.f.state != StateOpen ==> w' == w.(threads := w.threads[t := AllowTop]))
            && (pc.SlotSwap? && w.m.f.halfInFlight != pc.seen ==> w' == w.(threads := w.threads[t := SlotLoad]))
            && (pc.SuccessSwap? && w.m.f.state != StateHalfOpen ==>
                w' == w.(threads := w.threads[t := SuccessTop(pc.ticket)]))
  {
  }

  // ---- when no slot leaks ----

  /** From the decision to look for a slot until a probe's report has found the breaker half-open. */
  predicate Probing(pc: Pc) {
    || pc.SlotLoad? || pc.SlotSwap? || pc == Running(Probe) || pc == SuccessTop(Probe)
    || pc == SuccessSwap(Probe) || pc == FailureTop(Probe)
  }

  /** The step takes the breaker out of half_open although some other call is being probed. */
  ghost predicate Disturbs(o: Options, w: World, w': World) {
    exists t, u :: Enabled(w, Run(t)) && w' == Next(o, w, Run(t)) && DisturbsAs(w, w', t, u)
  }

  predicate DisturbsAs(w: World, w': World, t: nat, u: nat) {
    w.m.f.state == StateHalfOpen && w'.m.f.state != StateHalfOpen && t != u && Probing(At(w, u))
  }

  predicate Undisturbed(w: World) {
    w.m.leaked == 0 && (w.m.f.state != StateHalfOpen ==> forall u | u in w.threads :: !Probing(w.threads[u]))
  }

  /** A thread that probes after its own operation probed before, or found the breaker half-open, which it still is. */
  lemma OperationProbes(o: Options, m: Shared, pc: Pc)
    requires !pc.Idle? && !pc.Running?
    requires Probing(pc) ==> m.f.state == StateHalfOpen
    ensures var (m', pc') := Operate(o, m, pc);
            m'.leaked == m.leaked && (Probing(pc') ==> m.f.state == m'.f.state == StateHalfOpen)
  {
  }

  lemma StepKeepsUndisturbed(o: Options, w: World, a: Action)
    requires Undisturbed(w) && Enabled(w, a) && !Disturbs(o, w, Next(o, w, a))
    ensures Undisturbed(Next(o, w, a))
  {
    var w' := Next(o, w, a);
    if a.Run? {
      OperationProbes(o, w.m, At(w, a.t));
      forall u | w'.m.f.state != StateHalfOpen && u in w'.threads && u != a.t
        ensures !Probing(w'.threads[u])
      {
        assert At(w, u) == w'.threads[u] && !DisturbsAs(w, w', a.t, u);
      }
    }
  }

  /** No slot leaks in a run in which nobody takes the breaker out of half_open while another call is being probed. */
  lemma {:induction false} UndisturbedLeaksNothing(o: Options, r: seq<World>, i: nat)
    requires IsRun(o, r) && r[0] == Fresh(r[0].m.clock) && i < |r|
    requires forall j | 0 <= j < i :: !Disturbs(o, r[j], r[j + 1])
    ensures Undisturbed(r[i])
  {
    if i > 0 {
      UndisturbedLeaksNothing(o, r, i - 1);
      assert Steps(o, r[i - 1], r[i - 1 + 1]);
      var a :| Enabled(r[i - 1], a) && r[i] == Next(o, r[i - 1], a);
      assert !Disturbs(o, r[i - 1], r[i - 1 + 1]);
      StepKeepsUndisturbed(o, r[i - 1], a);
    }
  }

  /** Without a leak there is no wedge. */
  lemma WedgeNeedsLeaks(o: Options, r: seq<World>, i: nat)
    requires o.Valid() && IsRun(o, r) && r[0] == Fresh(r[0].m.clock) && i < |r|
    requires Wedged(o, r[i])
    ensures r[i].m.leaked >= o.halfOpenMax + r[i].m.stray
  {
    NoneOutstanding(o, r, i);
  }

  /** So such a run never wedges, and at its end ProbeAdmittedIff lets the next call through. */
  lemma UndisturbedNeverWedges(o: Options, r: seq<World>, i: nat)
    requires o.Valid() && IsRun(o, r) && r[0] == Fresh(r[0].m.clock) && i < |r|
    requires forall j | 0 <= j < i :: !Disturbs(o, r[j], r[j + 1])
    ensures r[i].m.leaked == 0 && !Wedged(o, r[i])
  {
    UndisturbedLeaksNothing(o, r, i);
    if Wedged(o, r[i]) {
      WedgeNeedsLeaks(o, r, i);
    }
  }

  // ---- how many callers it takes to wedge the breaker ----

  /** The threads inside the breaker or in a call it let through. */
  function Busy(w: World): set<nat> {
    Those(w.threads, (pc: Pc) => !pc.Idle?)
  }

  /** No run in which at most `n` threads are busy at a time ever wedges. */
  ghost predicate NeverWedges(o: Options, n: nat) {
    forall r: seq<World>, i | IsRun(o, r) && FromFresh(r) && AtMost(r, n) && 0 <= i < |r| ::
      !Wedged(o, r[i])
  }

  predicate FromFresh(r: seq<World>) { r != [] && r[0] == Fresh(r[0].m.clock) }

  predicate AtMost(r: seq<World>, n: nat) {
    forall i | 0 <= i < |r| :: |Busy(r[i])| <= n
  }

  /** One call at a time, no step takes the breaker away from another call. */
  lemma SerialUndisturbed(o: Options, w: World, w': World)
    requires |Busy(w)| <= 1
    ensures !Disturbs(o, w, w')
  {
    if Disturbs(o, w, w') {
      var t, u :| Enabled(w, Run(t)) && w' == Next(o, w, Run(t)) && DisturbsAs(w, w', t, u);
      assert {t, u} <= Busy(w);
      SubsetSize({t, u}, Busy(w));
    }
  }

  /** The wedge exactly: whatever the options, it needs two callers at a time, and two are enough. */
  lemma NeverWedgesIff(o: Options, n: nat)
    requires o.Valid()
    ensures NeverWedges(o, n) <==> n <= 1
  {
    if n <= 1 {
      forall r: seq<World>, i | IsRun(o, r) && FromFresh(r) && AtMost(r, n) && 0 <= i < |r|
        ensures !Wedged(o, r[i])
      {
        forall j | 0 <= j < i
          ensures !Disturbs(o, r[j], r[j + 1])
        {
          SerialUndisturbed(o, r[j], r[j + 1]);
        }
        UndisturbedNeverWedges(o, r, i);
      }
    } else {
      var r := WedgeReachable(o);
      PoliteIsRun(o, r);
      assert Wedged(o, r[|r| - 1]);
    }
  }

  lemma PoliteIsRun(o: Options, r: seq<World>)
    requires IsPoliteRun(o, r)
    ensures IsRun(o, r)
  {
    forall i | 0 <= i < |r| - 1
      ensures Steps(o, r[i], r[i + 1])
    {
      assert PoliteSteps(o, r[i], r[i + 1]);
    }
  }

  // ---- leaks are reachable by two callers that always ask, whatever the options ----

  /** A run from a fresh breaker that ends with shared state `m` and threads 0 and 1 at `a` and `b`. */
  ghost predicate Ends(o: Options, r: seq<World>, m: Shared, a: Pc, b: Pc) {
    && o.Valid() && IsPoliteRun(o, r) && r[0] == Fresh(0) && OnlyTwo(r)
    && var w := r[|r| - 1];
       w.m == m && At(w, 0) == a && At(w, 1) == b
  }

  predicate OnlyTwo(r: seq<World>) {
    forall i | 0 <= i < |r| :: r[i].threads.Keys <= {0, 1}
  }

  lemma Extend(o: Options, r: seq<World>, a: Action) returns (r': seq<World>)
    requires IsPoliteRun(o, r) && OnlyTwo(r) && Enabled(r[|r| - 1], a) && !a.Intrude?
    requires a.Tick? || a.t <= 1
    ensures IsPoliteRun(o, r') && OnlyTwo(r')
    ensures r'[0] == r[0] && r'[|r'| - 1] == Next(o, r[|r| - 1], a)
  {
    r' := r + [Next(o, r[|r| - 1], a)];
    forall i | 0 <= i < |r'| - 1
      ensures PoliteSteps(o, r'[i], r'[i + 1])
    {
      if i < |r| - 1 {
        assert PoliteSteps(o, r[i], r[i + 1]);
      }
    }
  }

  /** Thread 0 executes one operation. */
  lemma Move0(o: Options, r: seq<World>, m: Shared, a: Pc, b: Pc, m': Shared, a': Pc) returns (r': seq<World>)
    requires Ends(o, r, m, a, b) && !a.Idle? && !a.Running? && Operate(o, m, a) == (m', a')
    ensures Ends(o, r', m', a', b)
  {
    r' := Extend(o, r, Run(0));
  }

  /** Thread 1 executes one operation. */
  lemma Move1(o: Options, r: seq<World>, m: Shared, a: Pc, b: Pc, m': Shared, b': Pc) returns (r': seq<World>)
    requires Ends(o, r, m, a, b) && !b.Idle? && !b.Running? && Operate(o, m, b) == (m', b')
    ensures Ends(o, r', m', a, b')
  {
    r' := Extend(o, r, Run(1));
  }

  /** What stays the same while no slot leaks. */
  predicate SameAccount(m: Shared, m': Shared) {
    m'.clock == m.clock && m'.leaked == m.leaked && m'.stray == m.stray
  }

  /** Thread 0 is let through the closed breaker, its call fails, and the failure is counted. */
  lemma CountFailure(o: Options, r: seq<World>, m: Shared) returns (r': seq<World>, m': Shared)
    requires Ends(o, r, m, Idle, Idle) && m.f.state == StateClosed
    ensures Ends(o, r', m', if m'.f.failures < o.failureThreshold then Idle else FailureTrip, Idle)
    ensures m'.f == m.f.(failures := m.f.failures + 1) && SameAccount(m, m')
  {
    r' := Extend(o, r, Ask(0));
    var m1 := m.(admitted := m.admitted + 1);
    r' := Move0(o, r', m, AllowTop, Idle, m1, Running(WhileClosed));
    r' := Extend(o, r', Finish(0, false));
    r' := Move0(o, r', m1, FailureTop(WhileClosed), Idle, m1, FailureCount);
    m' := m1.(f := m1.f.(failures := m1.f.failures + 1));
    r' := Move0(o, r', m1, FailureCount, Idle, m',
                if m'.f.failures < o.failureThreshold then Idle else FailureTrip);
  }

  lemma {:induction false} FailTimes(o: Options, n: nat) returns (r: seq<World>, m: Shared)
    requires o.Valid() && n < o.failureThreshold
    ensures Ends(o, r, m, Idle, Idle) && SameAccount(Fresh(0).m, m)
    ensures m.f == Fields(StateClosed, n, 0, 0)
  {
    if n == 0 {
      r, m := [Fresh(0)], Fresh(0).m;
    } else {
      r, m := FailTimes(o, n - 1);
      r, m := CountFailure(o, r, m);
    }
  }

  /** As many failures in a row as the threshold open the breaker. */
  lemma Trip(o: Options) returns (r: seq<World>, m: Shared)
    requires o.Valid()
    ensures Ends(o, r, m, Idle, Idle) && SameAccount(Fresh(0).m, m)
    ensures m.f == Fields(StateOpen, o.failureThreshold, 0, 0)
  {
    r, m := FailTimes(o, o.failureThreshold - 1);
    r, m := CountFailure(o, r, m);
    r, m := Open(o, r, m);
  }

  lemma Open(o: Options, r: seq<World>, m: Shared) returns (r': seq<World>, m': Shared)
    requires Ends(o, r, m, FailureTrip, Idle) && m.f.state == StateClosed
    ensures Ends(o, r', m', Idle, Idle) && SameAccount(m, m')
    ensures m'.f == m.f.(state := StateOpen, openedAt := m.clock)
  {
    var m1 := Change(m, StateOpen);
    r' := Move0(o, r, m, FailureTrip, Idle, m1, StampClock(StateClosed));
    r' := Move0(o, r', m1, StampClock(StateClosed), Idle, m1, StampStore(StateClosed, m.clock));
    var m2 := m1.(f := m1.f.(openedAt := m.clock));
    r' := Move0(o, r', m1, StampStore(StateClosed, m.clock), Idle, m2, TellOpen(StateClosed));
    m' := Report(m2, StateClosed, StateOpen);
    r' := Move0(o, r', m2, TellOpen(StateClosed), Idle, m', Idle);
  }

  /** After the cool-down thread 0 finds the open breaker expired. */
  lemma Cool(o: Options, r: seq<World>, m: Shared) returns (r': seq<World>, m': Shared)
    requires Ends(o, r, m, Idle, Idle) && m.f.state == StateOpen && m.f.openedAt <= m.clock
    ensures Ends(o, r', m', ExpireSwap, Idle) && m' == m.(clock := m.clock + o.openTimeout)
  {
    m' := m.(clock := m.clock + o.openTimeout);
    r' := Extend(o, r, Tick(o.openTimeout));
    r' := Extend(o, r', Ask(0));
    r' := Move0(o, r', m', AllowTop, Idle, m', ExpireClock);
    r' := Move0(o, r', m', ExpireClock, Idle, m', ExpireCheck(m'.clock));
    r' := Move0(o, r', m', ExpireCheck(m'.clock), Idle, m', ExpireSwap);
  }

  /** It moves the breaker to half_open. */
  lemma HalfOpen(o: Options, r: seq<World>, m: Shared) returns (r': seq<World>, m': Shared)
    requires Ends(o, r, m, ExpireSwap, Idle) && m.f.state == StateOpen
    ensures Ends(o, r', m', AllowTop, Idle) && SameAccount(m, m')
    ensures m'.f == m.f.(state := StateHalfOpen)
  {
    var m1 := Change(m, StateHalfOpen);
    r' := Move0(o, r, m, ExpireSwap, Idle, m1, TellHalfOpen);
    m' := Report(m1, StateOpen, StateHalfOpen);
    r' := Move0(o, r', m1, TellHalfOpen, Idle, m', AllowTop);
  }

  /** Probe 0 takes slot `n`, fails, and has given the slot back but not yet reopened the breaker. */
  lemma FailProbe(o: Options, r: seq<World>, m: Shared, n: int) returns (r': seq<World>, m': Shared)
    requires Ends(o, r, m, AllowTop, Idle) && m.f.state == StateHalfOpen && m.f.halfInFlight == n < o.halfOpenMax
    ensures Ends(o, r', m', FailureReopen, Idle)
    ensures m'.f == m.f && SameAccount(m, m')
  {
    r' := Move0(o, r, m, AllowTop, Idle, m, SlotLoad);
    r' := Move0(o, r', m, SlotLoad, Idle, m, SlotSwap(n));
    var m1 := m.(f := m.f.(halfInFlight := n + 1), admitted := m.admitted + 1);
    r' := Move0(o, r', m, SlotSwap(n), Idle, m1, Running(Probe));
    r' := Extend(o, r', Finish(0, false));
    r' := Move0(o, r', m1, FailureTop(Probe), Idle, m1, FailureRelease(Probe));
    m' := Release(m1, Probe);
    r' := Move0(o, r', m1, FailureRelease(Probe), Idle, m', FailureReopen);
  }

  /** Before probe 0 reopens the breaker, call 1 takes the slot that was given back. */
  lemma StealSlot(o: Options, r: seq<World>, m: Shared, n: int) returns (r': seq<World>, m': Shared)
    requires Ends(o, r, m, FailureReopen, Idle)
    requires m.f.state == StateHalfOpen && m.f.halfInFlight == n < o.halfOpenMax
    ensures Ends(o, r', m', FailureReopen, Running(Probe))
    ensures m'.f == m.f.(halfInFlight := n + 1) && SameAccount(m, m')
  {
    r' := Extend(o, r, Ask(1));
    r' := Move1(o, r', m, FailureReopen, AllowTop, m, SlotLoad);
    r' := Move1(o, r', m, FailureReopen, SlotLoad, m, SlotSwap(n));
    m' := m.(f := m.f.(halfInFlight := n + 1), admitted := m.admitted + 1);
    r' := Move1(o, r', m, FailureReopen, SlotSwap(n), m', Running(Probe));
  }

  /** Probe 0 reopens the breaker; call 1 then reports to an open breaker and keeps its slot. */
  lemma ReportLate(o: Options, r: seq<World>, m: Shared) returns (r': seq<World>, m': Shared)
    requires Ends(o, r, m, FailureReopen, Running(Probe)) && m.f.state == StateHalfOpen
    ensures Ends(o, r', m', Idle, Idle) && m'.clock == m.clock
    ensures m'.f == m.f.(state := StateOpen, openedAt := m.clock)
    ensures m'.leaked == m.leaked + 1 && m'.stray == m.stray
  {
    var m1 := Change(m, StateOpen);
    r' := Move0(o, r, m, FailureReopen, Running(Probe), m1, StampClock(StateHalfOpen));
    r' := Move0(o, r', m1, StampClock(StateHalfOpen), Running(Probe), m1, StampStore(StateHalfOpen, m.clock));
    var m2 := m1.(f := m1.f.(openedAt := m.clock));
    r' := Move0(o, r', m1, StampStore(StateHalfOpen, m.clock), Running(Probe), m2, TellOpen(StateHalfOpen));
    var m3 := Report(m2, StateHalfOpen, StateOpen);
    r' := Move0(o, r', m2, TellOpen(StateHalfOpen), Running(Probe), m3, Idle);
    r' := Extend(o, r', Finish(1, true));
    m' := Keep(m3, Probe);
    r' := Move1(o, r', m3, Idle, SuccessTop(Probe), m', Idle);
  }

  /** After a cool-down thread 0 asks a half-open breaker. */
  lemma Expire(o: Options, r: seq<World>, m: Shared) returns (r': seq<World>, m': Shared)
    requires Ends(o, r, m, Idle, Idle) && m.f.state == StateOpen && m.f.openedAt <= m.clock
    ensures Ends(o, r', m', AllowTop, Idle)
    ensures m'.f == m.f.(state := StateHalfOpen) && m'.leaked == m.leaked && m'.stray == m.stray
    ensures m'.f.openedAt <= m'.clock
  {
    r', m' := Cool(o, r, m);
    r', m' := HalfOpen(o, r', m');
  }

  /** One more slot leaks until the next cool-down is over. */
  lemma LeakOne(o: Options, r: seq<World>, m: Shared, n: int) returns (r': seq<World>, m': Shared)
    requires Ends(o, r, m, AllowTop, Idle) && m.f.state == StateHalfOpen && m.f.halfInFlight == n < o.halfOpenMax
    ensures Ends(o, r', m', AllowTop, Idle) && m'.f.state == StateHalfOpen && m'.f.openedAt <= m'.clock
    ensures m'.f.halfInFlight == n + 1 && m'.leaked == m.leaked + 1 && m'.stray == m.stray
  {
    r', m' := FailProbe(o, r, m, n);
    r', m' := StealSlot(o, r', m', n);
    r', m' := ReportLate(o, r', m');
    r', m' := Expire(o, r', m');
  }

  /**
   * Both sides of ProbeAdmittedIff are met: any number of slots up to HalfOpenMax can be leaked, one in
   * every cool-down, until thread 0 asks a half-open breaker and nobody else is in a call.
   */
  lemma {:induction false} SlotsLeak(o: Options, n: nat) returns (r: seq<World>, m: Shared)
    requires o.Valid() && n <= o.halfOpenMax
    ensures Ends(o, r, m, AllowTop, Idle) && m.f.state == StateHalfOpen
    ensures m.f.halfInFlight == m.leaked == n && m.stray == 0
  {
    if n == 0 {
      r, m := Trip(o);
      r, m := Expire(o, r, m);
    } else {
      r, m := SlotsLeak(o, n - 1);
      r, m := LeakOne(o, r, m, n - 1);
    }
  }

  /** With every slot leaked that breaker is wedged: two callers wedge it, whatever the options. */
  lemma WedgeReachable(o: Options) returns (r: seq<World>)
    requires o.Valid()
    ensures IsPoliteRun(o, r) && r[0] == Fresh(0) && AtMost(r, 2)
    ensures Wedged(o, r[|r| - 1])
  {
    var m;
    r, m := SlotsLeak(o, o.halfOpenMax);
    var w := r[|r| - 1];
    forall t | t in w.threads
      ensures Harmless(w.threads[t])
    {
      assert t == 0 || t == 1;
      assert w.threads[t] == At(w, t);
    }
    forall i | 0 <= i < |r|
      ensures |Busy(r[i])| <= 2
    {
      SubsetSize(Busy(r[i]), {0, 1});
    }
  }
}
