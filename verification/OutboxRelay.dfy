/**
 * The outbox relay: it claims due events in batches, delivers usage events to the billing adapter
 * behind a circuit breaker, and marks each event published, retried or dead-lettered.
 */
module OutboxRelay {
  import opened Prelude
  import opened Backoff
  import Breakers = CircuitBreaker

  type Id = nat

  datatype Status = Pending | Failed | Published | DeadLetter

  /** A row of outbox_events; `parseable` tells whether the payload decodes as a usage event. */
  datatype Event = Event(
    usage: bool, parseable: bool, createdAt: int, status: Status, attempts: int, nextAttemptAt: Option<int>) {

    predicate Terminal() { status == Published || status == DeadLetter }
  }

  /** What came of processing an event once. */
  datatype Try = Internal | Unparseable | Denied | Refused | Accepted

  // ---- the marks ----

  function MarkPublished(e: Event): Event { e.(status := Published, nextAttemptAt := None) }

  function MarkRetry(e: Event, next: int): Event {
    e.(status := Failed, attempts := e.attempts + 1, nextAttemptAt := Some(next))
  }

  function MarkDeadLetter(e: Event): Event {
    e.(status := DeadLetter, attempts := e.attempts + 1, nextAttemptAt := None)
  }

  const LEASE := 120 * SECOND

  predicate Due(e: Event, now: int) {
    || (e.status == Pending && (e.nextAttemptAt.None? || e.nextAttemptAt.value <= now))
    || (e.status == Failed && e.nextAttemptAt.Some? && e.nextAttemptAt.value <= now)
  }

  function Leased(e: Event, now: int): Event { e.(nextAttemptAt := Some(now + LEASE)) }

  /** The row once processing came to `t` at time `now`. */
  function Processed(e: Event, t: Try, maxAttempts: int, now: int): Event {
    match t
    case Internal => MarkPublished(e)
    case Accepted => MarkPublished(e)
    case Unparseable => MarkDeadLetter(e)
    case Denied => AfterFailure(e, maxAttempts, now)
    case Refused => AfterFailure(e, maxAttempts, now)
  }

  function AfterFailure(e: Event, maxAttempts: int, now: int): Event {
    if e.attempts + 1 >= maxAttempts then MarkDeadLetter(e)
    else MarkRetry(e, now + Delay(e.attempts + 1))
  }

  /**
   * The row after processing, in its fields: delivered, or given up, or due again after the base delay doubled
   * with each earlier attempt, up to the cap.
   */
  lemma ProcessedFields(e: Event, t: Try, maxAttempts: int, now: int)
    requires e.attempts >= 0
    ensures var f := Processed(e, t, maxAttempts, now);
            && f.usage == e.usage && f.parseable == e.parseable && f.createdAt == e.createdAt
            && (t == Internal || t == Accepted ==>
                f.status == Published && f.attempts == e.attempts && f.nextAttemptAt == None)
            && (t == Unparseable || ((t == Denied || t == Refused) && e.attempts + 1 >= maxAttempts) ==>
                f.status == DeadLetter && f.attempts == e.attempts + 1 && f.nextAttemptAt == None)
            && ((t == Denied || t == Refused) && e.attempts + 1 < maxAttempts ==>
                f.status == Failed && f.attempts == e.attempts + 1
                && f.nextAttemptAt == Some(now + Min(2 * SECOND * Pow2(e.attempts), 300 * SECOND)))
  {
    ExactBackoff(e.attempts + 1);
  }

  // ---- what an event's row says about the tries it went through ----

  /** The tries of one event: how many failed, and the one that settled it, if any did. */
  datatype Tally = Tally(failures: nat, settledBy: Option<Try>) {
    function Tries(): nat { failures + if settledBy.Some? then 1 else 0 }
  }

  const UNTRIED := Tally(0, None)

  function Counted(y: Tally, t: Try): Tally {
    if t == Denied || t == Refused then y.(failures := y.failures + 1) else y.(settledBy := Some(t))
  }

  function Limit(maxAttempts: int): int { Max(1, maxAttempts) }

  predicate Consistent(e: Event, y: Tally, maxAttempts: int) {
    && y.Tries() <= Limit(maxAttempts)
    && match e.status
       case Pending => y == UNTRIED && e.attempts == 0
       case Failed =>
         && e.usage && e.parseable && y.settledBy.None?
         && 0 < e.attempts == y.failures < Limit(maxAttempts)
       case Published =>
         && e.attempts == y.failures
         && (if e.usage then e.parseable && y.settledBy == Some(Accepted) else y == Tally(0, Some(Internal)))
       case DeadLetter =>
         && e.usage && e.attempts == y.Tries()
         && (if e.parseable then y == Tally(Limit(maxAttempts), None) else y == Tally(0, Some(Unparseable)))
  }

  predicate AllConsistent(events: map<Id, Event>, tries: map<Id, Tally>, maxAttempts: int) {
    && events.Keys == tries.Keys
    && forall id | id in events :: Consistent(events[id], tries[id], maxAttempts)
  }

  /** The tries an event can come to. */
  predicate Possible(e: Event, t: Try) {
    && (t == Internal <==> !e.usage)
    && (t == Unparseable <==> e.usage && !e.parseable)
  }

  /** The outcomes that processing an event with call `c` can have. */
  predicate Fits(e: Event, c: Breakers.Call, t: Try) {
    Possible(e, t) && (t == Accepted ==> c.succeeds) && (t == Refused ==> !c.succeeds)
  }

  lemma ProcessingKeepsConsistent(e: Event, y: Tally, t: Try, maxAttempts: int, now: int)
    requires Consistent(e, y, maxAttempts) && !e.Terminal() && Possible(e, t)
    ensures Consistent(Processed(e, t, maxAttempts, now), Counted(y, t), maxAttempts)
    ensures Counted(y, t).Tries() == y.Tries() + 1
  {
  }

  /**
   * However an event got where it is: after at most the limit of tries it is terminal; a usage event is
   * published exactly when the adapter accepted it; and a dead-lettered one could not be decoded, or
   * failed the full limit of times.
   */
  lemma WithinLimit(e: Event, y: Tally, maxAttempts: int)
    requires Consistent(e, y, maxAttempts)
    ensures y.Tries() >= Limit(maxAttempts) ==> e.Terminal()
    ensures e.usage ==> (e.status == Published <==> y.settledBy == Some(Accepted))
    ensures e.status == DeadLetter <==>
            e.usage && (y.settledBy == Some(Unparseable) || y.failures == Limit(maxAttempts))
  {
  }

  /** Rows, tallies, and the deliveries that asked the breaker. */
  datatype Books = Books(events: map<Id, Event>, tries: map<Id, Tally>, asked: seq<Breakers.Call>)

  /** The calls with which a batch asks the breaker: those of its usage events that can be decoded. */
  function Asking(events: map<Id, Event>, ids: seq<Id>, calls: seq<Breakers.Call>): seq<Breakers.Call>
    requires |ids| <= |calls|
  {
    if ids == [] then []
    else
      var n := |ids| - 1;
      Asking(events, ids[..n], calls)
      + if ids[n] in events && events[ids[n]].usage && events[ids[n]].parseable then [calls[n]] else []
  }

  /** A lease does not change which those are. */
  lemma {:induction false} AskingAlike(a: map<Id, Event>, b: map<Id, Event>, ids: seq<Id>, calls: seq<Breakers.Call>)
    requires |ids| <= |calls| && a.Keys == b.Keys
    requires forall id | id in a :: a[id].usage == b[id].usage && a[id].parseable == b[id].parseable
    ensures Asking(a, ids, calls) == Asking(b, ids, calls)
  {
    if ids != [] {
      AskingAlike(a, b, ids[..|ids| - 1], calls);
    }
  }

  /** From `a` to `b` the event came to `t`: its row says so, and it has one try more. */
  predicate CameTo(a: Books, b: Books, id: Id, c: Breakers.Call, t: Try, maxAttempts: int, now: int) {
    && id in a.events && id in a.tries && id in b.events && id in b.tries
    && Fits(a.events[id], c, t) && b.events[id] == Processed(a.events[id], t, maxAttempts, now)
    && b.tries[id] == Counted(a.tries[id], t) && b.tries[id].Tries() == a.tries[id].Tries() + 1
  }

  predicate EachCameTo(a: Books, b: Books, ids: seq<Id>, calls: seq<Breakers.Call>, outcomes: seq<Try>,
                       maxAttempts: int, marks: seq<int>) {
    && |outcomes| == |ids| <= |marks| && |ids| <= |calls|
    && forall k | 0 <= k < |ids| :: CameTo(a, b, ids[k], calls[k], outcomes[k], maxAttempts, marks[k])
  }

  /** From `a` to `b` the events in `ids` were processed in turn, with these outcomes, and no other was touched. */
  predicate ProcessedSoFar(a: Books, b: Books, ids: seq<Id>, calls: seq<Breakers.Call>, outcomes: seq<Try>,
                           maxAttempts: int, marks: seq<int>) {
    && EachCameTo(a, b, ids, calls, outcomes, maxAttempts, marks)
    && OnlyThese(a, b, ids) && b.asked == a.asked + Asking(a.events, ids, calls)
  }

  /** From `a` to `b` no other event was touched. */
  predicate OnlyThese(a: Books, b: Books, ids: seq<Id>) {
    && b.events.Keys == a.events.Keys && b.tries.Keys == a.tries.Keys
    && (forall id | id in b.events && id !in ids :: b.events[id] == a.events[id])
    && (forall id | id in b.tries && id !in ids :: b.tries[id] == a.tries[id])
  }

  lemma OnlyTheseNext(a: Books, b: Books, next: Books, ids: seq<Id>, id: Id)
    requires OnlyThese(a, b, ids) && OnlyThese(b, next, [id])
    ensures OnlyThese(a, next, ids + [id])
    ensures forall x | x != id && x in b.events :: next.events[x] == b.events[x]
    ensures forall x | x != id && x in b.tries :: next.tries[x] == b.tries[x]
  {
  }

  lemma CameToStays(a: Books, b: Books, next: Books, id: Id, other: Id, c: Breakers.Call, t: Try, maxAttempts: int,
                    now: int)
    requires OnlyThese(b, next, [id]) && other != id && CameTo(a, b, other, c, t, maxAttempts, now)
    ensures CameTo(a, next, other, c, t, maxAttempts, now)
  {
  }

  lemma CameToFirst(a: Books, b: Books, next: Books, ids: seq<Id>, id: Id, c: Breakers.Call, t: Try,
                    maxAttempts: int, now: int)
    requires OnlyThese(a, b, ids) && id !in ids && CameTo(b, next, id, c, t, maxAttempts, now)
    ensures CameTo(a, next, id, c, t, maxAttempts, now) && b.events[id] == a.events[id]
  {
  }

  lemma EachNext(a: Books, b: Books, next: Books, ids: seq<Id>, calls: seq<Breakers.Call>, outcomes: seq<Try>,
                 maxAttempts: int, marks: seq<int>, id: Id, t: Try)
    requires EachCameTo(a, b, ids, calls, outcomes, maxAttempts, marks) && OnlyThese(b, next, [id])
    requires id !in ids && |ids| < |marks| && |ids| < |calls|
    requires CameTo(a, next, id, calls[|ids|], t, maxAttempts, marks[|ids|])
    ensures EachCameTo(a, next, ids + [id], calls, outcomes + [t], maxAttempts, marks)
  {
    forall k | 0 <= k < |ids| ensures CameTo(a, next, ids[k], calls[k], outcomes[k], maxAttempts, marks[k]) {
      CameToStays(a, b, next, id, ids[k], calls[k], outcomes[k], maxAttempts, marks[k]);
    }
  }

  lemma AskedNext(a: Books, b: Books, next: Books, ids: seq<Id>, id: Id, calls: seq<Breakers.Call>)
    requires |ids| < |calls| && id in a.events && id in b.events && a.events[id] == b.events[id]
    requires b.asked == a.asked + Asking(a.events, ids, calls)
    requires next.asked == b.asked + Asking(b.events, [id], [calls[|ids|]])
    ensures next.asked == a.asked + Asking(a.events, ids + [id], calls)
  {
    assert (ids + [id])[..|ids|] == ids && [id][..0] == [];
  }

  lemma ProcessedNext(a: Books, b: Books, next: Books, ids: seq<Id>, calls: seq<Breakers.Call>, outcomes: seq<Try>,
                      maxAttempts: int, marks: seq<int>, id: Id, t: Try)
    requires ProcessedSoFar(a, b, ids, calls, outcomes, maxAttempts, marks)
    requires OnlyThese(b, next, [id]) && id !in ids && |ids| < |marks| && |ids| < |calls|
    requires CameTo(b, next, id, calls[|ids|], t, maxAttempts, marks[|ids|])
    requires next.asked == b.asked + Asking(b.events, [id], [calls[|ids|]])
    ensures ProcessedSoFar(a, next, ids + [id], calls, outcomes + [t], maxAttempts, marks)
  {
    OnlyTheseNext(a, b, next, ids, id);
    CameToFirst(a, b, next, ids, id, calls[|ids|], t, maxAttempts, marks[|ids|]);
    AskedNext(a, b, next, ids, id, calls);
    EachNext(a, b, next, ids, calls, outcomes, maxAttempts, marks, id, t);
  }

  lemma EachLeaseGone(a: Books, leased: Books, b: Books, ids: seq<Id>, calls: seq<Breakers.Call>, outcomes: seq<Try>,
                      maxAttempts: int, marks: seq<int>, now: int)
    requires EachCameTo(leased, b, ids, calls, outcomes, maxAttempts, marks) && a.tries == leased.tries
    requires forall id | id in ids :: id in a.events && id in leased.events
                                      && leased.events[id] == Leased(a.events[id], now)
    ensures EachCameTo(a, b, ids, calls, outcomes, maxAttempts, marks)
  {
    forall k | 0 <= k < |ids| ensures CameTo(a, b, ids[k], calls[k], outcomes[k], maxAttempts, marks[k]) {
      assert CameTo(leased, b, ids[k], calls[k], outcomes[k], maxAttempts, marks[k]);
    }
  }

  /** A lease is gone once its event is processed: the batch comes to what it would have come to without. */
  lemma LeasesGone(a: Books, leased: Books, b: Books, ids: seq<Id>, calls: seq<Breakers.Call>, outcomes: seq<Try>,
                   maxAttempts: int, marks: seq<int>, now: int)
    requires a.events.Keys == leased.events.Keys && a.tries == leased.tries && a.asked == leased.asked
    requires forall id | id in a.events ::
               leased.events[id] == if id in ids then Leased(a.events[id], now) else a.events[id]
    requires ProcessedSoFar(leased, b, ids, calls, outcomes, maxAttempts, marks)
    ensures ProcessedSoFar(a, b, ids, calls, outcomes, maxAttempts, marks)
  {
    AskingAlike(a.events, leased.events, ids, calls);
    EachLeaseGone(a, leased, b, ids, calls, outcomes, maxAttempts, marks, now);
  }

  predicate NoRepeats(ids: seq<Id>) { forall i, j | 0 <= i < j < |ids| :: ids[i] != ids[j] }

  lemma NotBefore(ids: seq<Id>, i: nat)
    requires i < |ids| && NoRepeats(ids)
    ensures ids[i] in ids && ids[i] !in ids[..i] && ids[..i + 1] == ids[..i] + [ids[i]]
  {
  }

  /** The turn of the i-th event of a batch: not processed yet, and not terminal. */
  lemma Turn(a: Books, b: Books, ids: seq<Id>, i: nat, calls: seq<Breakers.Call>, outcomes: seq<Try>,
             maxAttempts: int, marks: seq<int>)
    requires a.events.Keys == a.tries.Keys && i < |ids| && NoRepeats(ids)
    requires ProcessedSoFar(a, b, ids[..i], calls, outcomes, maxAttempts, marks)
    requires forall id | id in ids :: id in a.events && !a.events[id].Terminal()
    ensures ids[i] !in ids[..i] && ids[..i + 1] == ids[..i] + [ids[i]]
    ensures ids[i] in b.events && ids[i] in b.tries && !b.events[ids[i]].Terminal()
  {
    NotBefore(ids, i);
  }

  // ---- the relay ----

  class Relay {
    const maxAttempts: int
    const batch: nat
    const breaker: Breakers.Breaker?
    var events: map<Id, Event>
    /** For each event, what processing it came to so far. */
    ghost var tries: map<Id, Tally>
    /** The deliveries that asked the breaker, in order. */
    ghost var asked: seq<Breakers.Call>

    ghost predicate Valid()
      reads this, breaker
    {
      && AllConsistent(events, tries, maxAttempts)
      && (breaker != null ==> breaker.opts.Valid() && breaker.View() == Breakers.AfterCalls(breaker.opts, asked))
    }

    ghost function Now(): Books
      reads this
    {
      Books(events, tries, asked)
    }

    /** Whether the breaker, if there is one, lets a delivery through at time `at`. */
    ghost predicate LetsThrough(at: int)
      reads this
    {
      breaker != null ==> Breakers.LetThrough(breaker.opts, Breakers.Remembered(breaker.opts, asked), at)
    }

    constructor (maxAttempts: int, batch: nat, breaker: Breakers.Breaker?)
      requires breaker != null ==>
                 breaker.opts.Valid() && breaker.View() == Breakers.Fields(Breakers.StateClosed, 0, 0, 0)
      ensures Valid() && events == map[] && asked == []
      ensures this.maxAttempts == maxAttempts && this.batch == batch && this.breaker == breaker
    {
      this.maxAttempts, this.batch, this.breaker := maxAttempts, batch, breaker;
      events, tries, asked := map[], map[], [];
    }

    /** Enqueues an event, as the service's transactions do. */
    method Emit(id: Id, usage: bool, parseable: bool, now: int)
      requires Valid() && id !in events
      modifies this`events, this`tries
      ensures Valid()
      ensures events == old(events)[id := Event(usage, parseable, now, Pending, 0, None)]
      ensures tries == old(tries)[id := UNTRIED]
    {
      events := events[id := Event(usage, parseable, now, Pending, 0, None)];
      tries := tries[id := UNTRIED];
    }

    /** ClaimDueOutboxEvents: the oldest due events, up to a batch, get a lease. */
    method Claim(now: int) returns (ids: seq<Id>)
      requires Valid()
      modifies this`events
      ensures Valid()
      ensures NoRepeats(ids)
      ensures forall id | id in ids :: id in old(events) && Due(old(events)[id], now)
      ensures forall id | id in old(events) && id !in ids && Due(old(events)[id], now) ::
                |ids| == batch && forall k | k in ids :: old(events)[k].createdAt <= old(events)[id].createdAt
      ensures |ids| <= batch
      ensures events.Keys == old(events).Keys
      ensures forall id | id in events ::
                events[id] == if id in ids then Leased(old(events)[id], now) else old(events)[id]
      ensures forall id | id in events && old(events)[id].nextAttemptAt.Some? ::
                var e := old(events)[id];
                && (id in ids ==> e.nextAttemptAt.value <= now)
                && (id !in ids && !e.Terminal() && e.nextAttemptAt.value <= now ==> |ids| == batch)
      ensures forall id | id in events && old(events)[id].nextAttemptAt.None? ::
                var e := old(events)[id];
                (id in ids ==> e.status == Pending) && (id !in ids && e.status == Pending ==> |ids| == batch)
      ensures forall id | id in ids ::
                !old(events)[id].Terminal() && events[id].nextAttemptAt == Some(now + 120 * SECOND)
    {
      ids := SelectDue(now);
      events := map id | id in events :: if id in ids then Leased(events[id], now) else events[id];
    }

    method SelectDue(now: int) returns (ids: seq<Id>)
      ensures NoRepeats(ids)
      ensures forall id | id in ids :: id in events && Due(events[id], now)
      ensures forall id | id in events && id !in ids && Due(events[id], now) ::
                |ids| == batch && forall k | k in ids :: events[k].createdAt <= events[id].createdAt
      ensures |ids| <= batch
    {
      ids := [];
      var due := set id | id in events && Due(events[id], now);
      var rest := due;
      while rest != {} && |ids| < batch
        invariant rest <= due <= events.Keys && |ids| <= batch
        invariant NoRepeats(ids)
        invariant forall id :: id in ids <==> id in due && id !in rest
        invariant forall k, id | k in ids && id in rest :: events[k].createdAt <= events[id].createdAt
        decreases rest
      {
        var oldest := Oldest(rest);
        ids := ids + [oldest];
        rest := rest - {oldest};
      }
      assert forall id | id in events && Due(events[id], now) :: id in due;
    }

    method Oldest(ids: set<Id>) returns (oldest: Id)
      requires ids != {} && ids <= events.Keys
      ensures oldest in ids && forall id | id in ids :: events[oldest].createdAt <= events[id].createdAt
    {
      oldest :| oldest in ids;
      var rest := ids - {oldest};
      while rest != {}
        invariant oldest in ids && rest <= ids
        invariant forall id | id in ids && id !in rest :: events[oldest].createdAt <= events[id].createdAt
        decreases rest
      {
        var id :| id in rest;
        rest := rest - {id};
        if events[id].createdAt < events[oldest].createdAt {
          oldest := id;
        }
      }
    }

    /**
     * deliverUsage.  `c` says when the breaker is asked, how the adapter would answer and when; `now` is
     * when the outcome is marked.  The adapter is called exactly when the payload decodes and the breaker
     * lets the delivery through.
     */
    method DeliverUsage(id: Id, c: Breakers.Call, now: int) returns (called: bool, ghost t: Try)
      requires Valid() && id in events && events[id].usage && !events[id].Terminal()
      modifies this`events, this`tries, this`asked, breaker
      ensures Valid()
      ensures called <==> old(events)[id].parseable && old(LetsThrough(c.at))
      ensures t == if !old(events)[id].parseable then Unparseable
                   else if !called then Denied
                   else if c.succeeds then Accepted else Refused
      ensures events == old(events)[id := Processed(old(events)[id], t, maxAttempts, now)]
      ensures tries == old(tries)[id := Counted(old(tries)[id], t)]
      ensures id in events
      ensures var e, f := old(events)[id], events[id];
              && (t == Internal || t == Accepted ==>
                  f == e.(status := Published, nextAttemptAt := None))
              && (t == Unparseable || ((t == Denied || t == Refused) && e.attempts + 1 >= maxAttempts) ==>
                  f == e.(status := DeadLetter, attempts := e.attempts + 1, nextAttemptAt := None))
              && ((t == Denied || t == Refused) && e.attempts + 1 < maxAttempts ==>
                  f == e.(status := Failed, attempts := e.attempts + 1,
                          nextAttemptAt := Some(now + Min(2 * SECOND * Pow2(e.attempts), 300 * SECOND))))
      ensures asked == if old(events)[id].parseable then old(asked) + [c] else old(asked)
    {
      ghost var row := events[id];
      called := false;
      var e := events[id];
      if !e.parseable {
        t := Unparseable;
        ProcessedFields(row, t, maxAttempts, now);
        Mark(id, MarkDeadLetter(e), t, now);
        return;
      }
      ghost var before := asked;
      asked := asked + [c];
      assert asked[..|asked| - 1] == before && asked[|asked| - 1] == c;
      if breaker != null {
        Breakers.RefinesHistory(breaker.opts, before);
        var admitted := breaker.Allow(c.at);
        if !admitted {
          t := Denied;
          ProcessedFields(row, t, maxAttempts, now);
          RetryOrDeadLetter(id, t, now);
          return;
        }
      }
      called := true;
      if !c.succeeds {
        if breaker != null {
          breaker.OnFailure(c.doneAt);
        }
        t := Refused;
        ProcessedFields(row, t, maxAttempts, now);
        RetryOrDeadLetter(id, t, now);
        return;
      }
      if breaker != null {
        breaker.OnSuccess();
      }
      t := Accepted;
      ProcessedFields(row, t, maxAttempts, now);
      Mark(id, MarkPublished(e), t, now);
    }

    method RetryOrDeadLetter(id: Id, ghost t: Try, now: int)
      requires Valid() && id in events && !events[id].Terminal() && Possible(events[id], t)
      requires t == Denied || t == Refused
      modifies this`events, this`tries
      ensures Valid()
      ensures events == old(events)[id := AfterFailure(old(events)[id], maxAttempts, now)]
      ensures tries == old(tries)[id := Counted(old(tries)[id], t)]
    {
      var e := events[id];
      var attempts := e.attempts + 1;
      if attempts >= maxAttempts {
        Mark(id, MarkDeadLetter(e), t, now);
      } else {
        Mark(id, MarkRetry(e, now + Delay(attempts)), t, now);
      }
    }

    /** One mark transaction. */
    method Mark(id: Id, e: Event, ghost t: Try, now: int)
      requires Valid() && id in events && !events[id].Terminal() && Possible(events[id], t)
      requires e == Processed(events[id], t, maxAttempts, now)
      modifies this`events, this`tries
      ensures Valid()
      ensures events == old(events)[id := e] && tries == old(tries)[id := Counted(old(tries)[id], t)]
    {
      ProcessingKeepsConsistent(events[id], tries[id], t, maxAttempts, now);
      events := events[id := e];
      tries := tries[id := Counted(tries[id], t)];
    }

    method ProcessEvent(id: Id, c: Breakers.Call, now: int) returns (called: bool, ghost t: Try)
      requires Valid() && id in events && !events[id].Terminal()
      modifies this`events, this`tries, this`asked, breaker
      ensures Valid() && Possible(old(events)[id], t)
      ensures called <==> old(events)[id].usage && old(events)[id].parseable && old(LetsThrough(c.at))
      ensures called <==> t == Accepted || t == Refused
      ensures (t == Accepted ==> c.succeeds) && (t == Refused ==> !c.succeeds)
      ensures asked == if old(events)[id].usage && old(events)[id].parseable then old(asked) + [c] else old(asked)
      ensures events == old(events)[id := Processed(old(events)[id], t, maxAttempts, now)]
      ensures tries == old(tries)[id := Counted(old(tries)[id], t)]
      ensures id in events
      ensures var e, f := old(events)[id], events[id];
              && (t == Internal || t == Accepted ==>
                  f == e.(status := Published, nextAttemptAt := None))
              && (t == Unparseable || ((t == Denied || t == Refused) && e.attempts + 1 >= maxAttempts) ==>
                  f == e.(status := DeadLetter, attempts := e.attempts + 1, nextAttemptAt := None))
              && ((t == Denied || t == Refused) && e.attempts + 1 < maxAttempts ==>
                  f == e.(status := Failed, attempts := e.attempts + 1,
                          nextAttemptAt := Some(now + Min(2 * SECOND * Pow2(e.attempts), 300 * SECOND))))
    {
      ghost var row := events[id];
      if events[id].usage {
        called, t := DeliverUsage(id, c, now);
      } else {
        called, t := false, Internal;
        Mark(id, MarkPublished(events[id]), t, now);
      }
      ProcessedFields(row, t, maxAttempts, now);
    }

    /** The loop over a claimed batch: each of its events is processed once, in turn, and no other. */
    method ProcessAll(ids: seq<Id>, calls: seq<Breakers.Call>, marks: seq<int>) returns (ghost outcomes: seq<Try>)
      requires Valid() && |calls| >= |ids| && |marks| >= |ids|
      requires NoRepeats(ids)
      requires forall id | id in ids :: id in events && !events[id].Terminal()
      modifies this`events, this`tries, this`asked, breaker
      ensures Valid() && ProcessedSoFar(old(Now()), Now(), ids, calls, outcomes, maxAttempts, marks)
    {
      ghost var books := Now();
      outcomes := [];
      for i := 0 to |ids|
        invariant Valid() && ProcessedSoFar(books, Now(), ids[..i], calls, outcomes, maxAttempts, marks)
      {
        ghost var before := Now();
        Turn(books, before, ids, i, calls, outcomes, maxAttempts, marks);
        ghost var t := ProcessOne(ids[i], calls[i], marks[i]);
        ProcessedNext(books, before, Now(), ids[..i], calls, outcomes, maxAttempts, marks, ids[i], t);
        outcomes := outcomes + [t];
      }
      assert ids[..|ids|] == ids;
    }

    /** One turn of the loop. */
    method ProcessOne(id: Id, c: Breakers.Call, now: int) returns (ghost t: Try)
      requires Valid() && id in events && id in tries && !events[id].Terminal()
      modifies this`events, this`tries, this`asked, breaker
      ensures Valid() && OnlyThese(old(Now()), Now(), [id]) && CameTo(old(Now()), Now(), id, c, t, maxAttempts, now)
      ensures asked == old(asked) + Asking(old(events), [id], [c])
    {
      ghost var e, y := events[id], tries[id];
      var called;
      called, t := ProcessEvent(id, c, now);
      ProcessingKeepsConsistent(e, y, t, maxAttempts, now);
      assert [id][..0] == [];
    }

    /** One poll: the claimed events are processed once each, the k-th with the k-th call and mark. */
    method Drain(now: int, calls: seq<Breakers.Call>, marks: seq<int>)
      returns (ids: seq<Id>, ghost outcomes: seq<Try>)
      requires Valid() && |calls| >= batch && |marks| >= batch
      modifies this`events, this`tries, this`asked, breaker
      ensures Valid() && events.Keys == old(events).Keys && |ids| <= batch
      ensures forall id | id in ids :: id in old(events) && Due(old(events)[id], now)
      ensures ProcessedSoFar(old(Now()), Now(), ids, calls, outcomes, maxAttempts, marks)
    {
      ghost var books := Now();
      ids := Claim(now);
      ghost var leased := Now();
      outcomes := ProcessAll(ids, calls, marks);
      LeasesGone(books, leased, Now(), ids, calls, outcomes, maxAttempts, marks, now);
    }
  }

  // ---- the whole life of one event ----

  /** The row after these tries, one per claim, with the times of the marks; a terminal row stays. */
  function Lived(e: Event, steps: seq<(Try, int)>, maxAttempts: int): Event
    decreases |steps|
  {
    if steps == [] || e.Terminal() then e
    else Lived(Processed(e, steps[0].0, maxAttempts, steps[0].1), steps[1..], maxAttempts)
  }

  /** The position of the first accepted try, or the number of tries. */
  function FirstAccepted(steps: seq<(Try, int)>): nat {
    if steps == [] then 0 else if steps[0].0 == Accepted then 0 else 1 + FirstAccepted(steps[1..])
  }

  /**
   * The fate of a usage event is decided by the position of the first accepted try alone: accepted
   * within the limit it is published, with the number of failures before it as its attempts; else it
   * is dead-lettered at the limit, and not a try sooner.
   */
  lemma {:induction false} Fate(e: Event, steps: seq<(Try, int)>, maxAttempts: int)
    requires e.usage && e.parseable && !e.Terminal() && 0 <= e.attempts < Limit(maxAttempts)
    requires forall s | s in steps :: Possible(e, s.0)
    ensures var k, end, limit := FirstAccepted(steps), Lived(e, steps, maxAttempts), Limit(maxAttempts);
            if k < |steps| && e.attempts + k < limit then end.status == Published && end.attempts == e.attempts + k
            else if e.attempts + |steps| >= limit then end.status == DeadLetter && end.attempts == limit
            else !end.Terminal() && end.attempts == e.attempts + |steps|
    decreases |steps|
  {
    if steps != [] {
      assert steps[0] in steps;
      var next := Processed(e, steps[0].0, maxAttempts, steps[0].1);
      if !next.Terminal() {
        Fate(next, steps[1..], maxAttempts);
      }
    }
  }
}
