/**
 * The three-state circuit breaker, used one call at a time as the outbox relay uses it.
 */
module CircuitBreaker {
  import opened Prelude

  datatype State = StateClosed | StateHalfOpen | StateOpen

  datatype Options = Options(failureThreshold: int, openTimeout: int, halfOpenMax: int) {
    predicate Valid() { failureThreshold > 0 && openTimeout > 0 && halfOpenMax > 0 }
  }

  const SECOND := 1_000_000_000

  /** Non-positive options fall back to 5 failures, 30 seconds and 1 probe. */
  function WithDefaults(o: Options): (d: Options)
    ensures d.Valid()
    ensures o.Valid() ==> d == o
  {
    Options(if o.failureThreshold <= 0 then 5 else o.failureThreshold,
            if o.openTimeout <= 0 then 30 * SECOND else o.openTimeout,
            if o.halfOpenMax <= 0 then 1 else o.halfOpenMax)
  }

  /** The values of the breaker's four atomic fields. */
  datatype Fields = Fields(state: State, failures: int, openedAt: int, halfInFlight: int)

  /** One Allow at time `now`: the fields afterwards, and the decision. */
  function Allowed(o: Options, f: Fields, now: int): (Fields, bool) {
    match f.state
    case StateClosed => (f, true)
    case StateOpen =>
      if now - f.openedAt < o.openTimeout then (f, false)
      else AcquireProbe(o, f.(state := StateHalfOpen))
    case StateHalfOpen => AcquireProbe(o, f)
  }

  function AcquireProbe(o: Options, f: Fields): (Fields, bool) {
    if f.halfInFlight >= o.halfOpenMax then (f, false)
    else (f.(halfInFlight := f.halfInFlight + 1), true)
  }

  function Succeeded(f: Fields): Fields {
    match f.state
    case StateClosed => f.(failures := 0)
    case StateHalfOpen => f.(state := StateClosed, halfInFlight := f.halfInFlight - 1, failures := 0)
    case StateOpen => f
  }

  function Failed(o: Options, f: Fields, now: int): Fields {
    match f.state
    case StateClosed =>
      if f.failures + 1 < o.failureThreshold then f.(failures := f.failures + 1)
      else f.(failures := f.failures + 1, state := StateOpen, openedAt := now)
    case StateHalfOpen => f.(halfInFlight := f.halfInFlight - 1, state := StateOpen, openedAt := now)
    case StateOpen => f
  }

  class Breaker {
    const opts: Options
    var state: State
    var failures: int
    var openedAt: int
    var halfInFlight: int
    /** Every call made to the onTransition callback, oldest first. */
    var reported: seq<(State, State)>

    ghost function View(): Fields
      reads this
    {
      Fields(state, failures, openedAt, halfInFlight)
    }

    constructor (o: Options)
      ensures opts == WithDefaults(o)
      ensures opts.failureThreshold == (if o.failureThreshold > 0 then o.failureThreshold else 5)
      ensures opts.openTimeout == (if o.openTimeout > 0 then o.openTimeout else 30_000_000_000)
      ensures opts.halfOpenMax == (if o.halfOpenMax > 0 then o.halfOpenMax else 1)
      ensures View() == Fields(StateClosed, 0, 0, 0) && reported == [(StateClosed, StateClosed)]
    {
      opts := WithDefaults(o);
      state, failures, openedAt, halfInFlight := StateClosed, 0, 0, 0;
      reported := [(StateClosed, StateClosed)];
    }

    /** The callbacks an operation makes: one when the state changed, none otherwise. */
    twostate predicate ReportsItsChange()
      reads this
    {
      reported == old(reported) + if state == old(state) then [] else [(old(state), state)]
    }

    method Allow(now: int) returns (ok: bool)
      requires opts.Valid()
      modifies this
      ensures (View(), ok) == Allowed(opts, old(View()), now)
      ensures old(state) == StateClosed ==> ok && View() == old(View())
      ensures old(state) == StateOpen && now - old(openedAt) < opts.openTimeout ==> !ok && View() == old(View())
      ensures old(state) == StateHalfOpen || (old(state) == StateOpen && now - old(openedAt) >= opts.openTimeout) ==>
                && (ok <==> old(halfInFlight) < opts.halfOpenMax)
                && halfInFlight == old(halfInFlight) + (if ok then 1 else 0)
                && state == StateHalfOpen && failures == old(failures) && openedAt == old(openedAt)
      ensures ReportsItsChange()
    {
      while true
        invariant ReportsItsChange()
        invariant state != StateHalfOpen ==> View() == old(View())
        invariant state == StateHalfOpen ==>
            Allowed(opts, old(View()), now) == AcquireProbe(opts, View())
        decreases state.StateOpen?
      {
        match state
        case StateClosed => return true;
        case StateOpen =>
          var expired := ExpireOpen(now);
          if !expired {
            return false;
          }
        case StateHalfOpen =>
          ok := TryAcquireHalfOpen();
          return;
      }
    }

    method ExpireOpen(now: int) returns (ok: bool)
      requires state == StateOpen
      modifies this`state, this`reported
      ensures ok <==> now - openedAt >= opts.openTimeout
      ensures state == (if ok then StateHalfOpen else StateOpen) && ReportsItsChange()
    {
      if now - openedAt < opts.openTimeout {
        return false;
      }
      if state == StateOpen {
        state := StateHalfOpen;
        Transition(StateOpen, StateHalfOpen);
      }
      return true;
    }

    method TryAcquireHalfOpen() returns (ok: bool)
      modifies this`halfInFlight
      ensures (View(), ok) == AcquireProbe(opts, old(View()))
    {
      var n := halfInFlight;
      if n >= opts.halfOpenMax {
        return false;
      }
      halfInFlight := n + 1;
      return true;
    }

    method OnSuccess()
      modifies this
      ensures View() == Succeeded(old(View()))
      ensures openedAt == old(openedAt) && (old(state) == StateOpen ==> View() == old(View()))
      ensures old(state) != StateOpen ==> state == StateClosed && failures == 0
      ensures halfInFlight == old(halfInFlight) - if old(state) == StateHalfOpen then 1 else 0
      ensures ReportsItsChange()
    {
      match state
      case StateClosed => failures := 0;
      case StateHalfOpen =>
        state := StateClosed;
        halfInFlight := halfInFlight - 1;
        failures := 0;
        Transition(StateHalfOpen, StateClosed);
      case StateOpen =>
    }

    method OnFailure(now: int)
      modifies this
      ensures View() == Failed(opts, old(View()), now)
      ensures failures == old(failures) + if old(state) == StateClosed then 1 else 0
      ensures halfInFlight == old(halfInFlight) - if old(state) == StateHalfOpen then 1 else 0
      ensures if old(state) == StateClosed && failures < opts.failureThreshold then state == StateClosed
              else state == StateOpen
      ensures openedAt == if old(state) != StateOpen && state == StateOpen then now else old(openedAt)
      ensures ReportsItsChange()
    {
      match state
      case StateClosed =>
        failures := failures + 1;
        if failures < opts.failureThreshold {
          return;
        }
        state := StateOpen;
        openedAt := now;
        Transition(StateClosed, StateOpen);
      case StateHalfOpen =>
        halfInFlight := halfInFlight - 1;
        state := StateOpen;
        openedAt := now;
        Transition(StateHalfOpen, StateOpen);
      case StateOpen =>
    }

    method Transition(from: State, to: State)
      modifies this`reported
      ensures reported == old(reported) + [(from, to)]
    {
      reported := reported + [(from, to)];
    }
  }

  // ---- runs of whole calls ----

  /** One attempted call: when Allow is asked, whether the dependency answers well, and when. */
  datatype Call = Call(at: int, succeeds: bool, doneAt: int)

  /** A call as the breaker experiences it: Allow, then OnSuccess or OnFailure if it was admitted. */
  function AfterCall(o: Options, f: Fields, c: Call): (Fields, bool) {
    var (f', ok) := Allowed(o, f, c.at);
    if !ok then (f', false)
    else (if c.succeeds then Succeeded(f') else Failed(o, f', c.doneAt), true)
  }

  function AfterCalls(o: Options, calls: seq<Call>): Fields {
    if calls == [] then Fields(StateClosed, 0, 0, 0)
    else AfterCall(o, AfterCalls(o, calls[..|calls| - 1]), calls[|calls| - 1]).0
  }

  predicate Admitted(o: Options, calls: seq<Call>, i: nat)
    requires i < |calls|
  {
    AfterCall(o, AfterCalls(o, calls[..i]), calls[i]).1
  }

  /**
   * The breaker as its documentation describes it, without fields: what a caller remembers is the
   * current streak of failures and when the last admitted call finished.
   */
  datatype History = History(streak: nat, lastDone: int)

  /** Closed while the streak is short; otherwise denied until the cool-down is over. */
  predicate LetThrough(o: Options, h: History, at: int) {
    h.streak < o.failureThreshold || at - h.lastDone >= o.openTimeout
  }

  function Remembered(o: Options, calls: seq<Call>): History {
    if calls == [] then History(0, 0)
    else
      var c := calls[|calls| - 1];
      var h := Remembered(o, calls[..|calls| - 1]);
      if !LetThrough(o, h, c.at) then h
      else History(if c.succeeds then 0 else h.streak + 1, c.doneAt)
  }

  /** The fields that stand for a history. */
  predicate Represents(o: Options, f: Fields, h: History) {
    && f.halfInFlight == 0
    && f.state == (if h.streak < o.failureThreshold then StateClosed else StateOpen)
    && (h.streak < o.failureThreshold ==> f.failures == h.streak)
    && (h.streak >= o.failureThreshold ==> f.openedAt == h.lastDone)
  }

  /**
   * One call at a time, the breaker refines that description: it is open exactly while the streak
   * is at least the threshold, open since the last admitted call finished; while closed it counts
   * the streak; and no probe slot is ever left taken.
   */
  lemma {:induction false} RefinesHistory(o: Options, calls: seq<Call>)
    requires o.Valid()
    ensures Represents(o, AfterCalls(o, calls), Remembered(o, calls))
  {
    if calls != [] {
      RefinesHistory(o, calls[..|calls| - 1]);
    }
  }

  /**
   * A call is let through exactly when the streak before it is below the threshold or the
   * cool-down since the last admitted call is over: a tripped breaker denies everything for
   * openTimeout and then always admits a probe.
   */
  lemma AdmittedIff(o: Options, calls: seq<Call>, i: nat)
    requires o.Valid() && i < |calls|
    ensures Admitted(o, calls, i) <==> LetThrough(o, Remembered(o, calls[..i]), calls[i].at)
  {
    RefinesHistory(o, calls[..i]);
  }

  /** The breaker trips at the threshold: after exactly that many failures in a row it is open. */
  lemma {:induction false} TripsAtThreshold(o: Options, calls: seq<Call>)
    requires o.Valid() && |calls| <= o.failureThreshold
    requires forall c | c in calls :: !c.succeeds
    ensures AfterCalls(o, calls).state == if |calls| == o.failureThreshold then StateOpen else StateClosed
    ensures Remembered(o, calls).streak == |calls|
  {
    RefinesHistory(o, calls);
    if calls != [] {
      var n := |calls| - 1;
      TripsAtThreshold(o, calls[..n]);
      assert calls[n] in calls;
    }
  }
}
