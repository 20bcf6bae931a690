/** The Idempotency-Key protocol for one scope, key, method and path. */
module Idempotency {
  import opened Prelude
  import opened ResponseRecording

  datatype Status = InProgress | Completed(response: Response)

  datatype Record = Record(id: nat, status: Status)

  /** Where a request stands in idempotencyMiddleware. */
  datatype Pc =
    | Absent                                // not arrived yet
    | LookingUp
    | Claiming
    | LostClaim                             // the insert hit the unique constraint
    | Executing(id: nat)                    // running the handler as the owner of record `id`
    | Deleting(id: nat)
    | Completing(id: nat, response: Response)
    | Unprotected                           // running the handler without bookkeeping
    | Done                                  // answered, or crashed

  /** What a request was answered: a 409, a stored response, or the live response of the handler. */
  datatype Answer = Conflict | Replayed(response: Response) | Handled(response: Response)

  /** The table row, and history: which executions ended how, and what was done to whom. */
  datatype Shared = Shared(
    row: Option<Record>,
    nextId: nat,
    started: nat,                 // handler executions started under a claim
    ended: map<nat, Response>,    // how the execution owning each record ended
    purged: set<nat>,             // records removed by the expiry purge
    replays: set<Response>,       // responses served from the table
    unprotected: nat,             // handler executions started because of a lookup or claim error
    answers: map<nat, Answer>)    // what each request was answered

  datatype World = World(m: Shared, requests: map<nat, Pc>)

  /**
   * Any number of requests; database errors (also of an insert that did commit), crashes and the expiry
   * purge may strike anywhere.
   */
  datatype Action =
    | Arrive(t: nat)
    | Lookup(t: nat)
    | LookupError(t: nat)
    | Claim(t: nat)
    | ClaimError(t: nat, committed: bool)  // the insert may have been committed all the same
    | LookupAgain(t: nat, error: bool)
    | Finish(t: nat, response: Response)   // the handler returns
    | Settle(t: nat, applied: bool)        // delete or complete; a failing one changes nothing
    | Crash(t: nat)
    | Purge

  function At(w: World, t: nat): Pc {
    if t in w.requests then w.requests[t] else Absent
  }

  predicate Enabled(w: World, a: Action) {
    match a
    case Arrive(t) => At(w, t).Absent?
    case Lookup(t) => At(w, t).LookingUp?
    case LookupError(t) => At(w, t).LookingUp?
    case Claim(t) => At(w, t).Claiming?
    case ClaimError(t, _) => At(w, t).Claiming?
    case LookupAgain(t, _) => At(w, t).LostClaim?
    case Finish(t, _) => At(w, t).Executing? || At(w, t).Unprotected?
    case Settle(t, _) => At(w, t).Deleting? || At(w, t).Completing?
    case Crash(t) => !At(w, t).Absent?
    case Purge => w.m.row.Some?
  }

  function Next(w: World, a: Action): World
    requires Enabled(w, a)
  {
    match a
    case Arrive(t) => w.(requests := w.requests[t := LookingUp])
    case Purge => w.(m := w.m.(row := None, purged := w.m.purged + {w.m.row.value.id}))
    case _ =>
      var (m, pc) := Operate(w.m, At(w, a.t), a);
      World(m, w.requests[a.t := pc])
  }

  /** INSERT ... ON CONFLICT DO NOTHING: the new row, if there was none. */
  function Insert(m: Shared): Shared {
    if m.row.None? then m.(row := Some(Record(m.nextId, InProgress)), nextId := m.nextId + 1) else m
  }

  function Answered(m: Shared, t: nat, answer: Answer): Shared { m.(answers := m.answers[t := answer]) }

  /** One database operation, or the return of the handler, by a request at `pc`. */
  function Operate(m: Shared, pc: Pc, a: Action): (Shared, Pc)
    requires !a.Arrive? && !a.Purge? && Enabled(World(m, map[a.t := pc]), a)
  {
    match a
    case Lookup(_) => (
      match m.row
      case None => (m, Claiming)
      case Some(Record(_, Completed(r))) => (Answered(m.(replays := m.replays + {r}), a.t, Replayed(r)), Done)
      case Some(Record(_, InProgress)) => (Answered(m, a.t, Conflict), Done))
    case LookupError(_) => (m.(unprotected := m.unprotected + 1), Unprotected)
    case Claim(_) =>
      if m.row.None? then (Insert(m).(started := m.started + 1), Executing(m.nextId))
      else (m, LostClaim)
    case ClaimError(_, committed) =>
      ((if committed then Insert(m) else m).(unprotected := m.unprotected + 1), Unprotected)
    case LookupAgain(_, error) =>
      if !error && m.row.Some? && m.row.value.status.Completed?
      then
        var r := m.row.value.status.response;
        (Answered(m.(replays := m.replays + {r}), a.t, Replayed(r)), Done)
      else (Answered(m, a.t, Conflict), Done)
    case Finish(_, r) =>
      var m' := Answered(m, a.t, Handled(r));
      if pc.Unprotected? then (m', Done)
      else (m'.(ended := m.ended[pc.id := r]), if Cached(r) then Completing(pc.id, r) else Deleting(pc.id))
    case Settle(_, applied) =>
      if !applied || m.row.None? || m.row.value.id != pc.id then (m, Done)
      else if pc.Deleting? then (m.(row := None), Done)
      else if m.row.value.status.InProgress?
      then (m.(row := Some(Record(pc.id, Completed(pc.response)))), Done)
      else (m, Done)
    case Crash(_) => (m, Done)
  }

  ghost predicate Steps(w: World, w': World) {
    exists a :: Enabled(w, a) && w' == Next(w, a)
  }

  ghost predicate IsRun(r: seq<World>) {
    && |r| > 0
    && forall i | 0 <= i < |r| - 1 :: Steps(r[i], r[i + 1])
  }

  const EMPTY := World(Shared(None, 0, 0, map[], {}, {}, 0, map[]), map[])

  // ---- what every run keeps ----

  predicate Owner(pc: Pc) {
    pc.Executing? || pc.Deleting? || pc.Completing?
  }

  /** Record `id` is still in the table, in progress, unless the purge took it. */
  predicate Held(m: Shared, id: nat) {
    m.row == Some(Record(id, InProgress)) || id in m.purged
  }

  predicate Succeeded(m: Shared, id: nat) {
    id in m.ended && Cached(m.ended[id])
  }

  /** What a request between its claim and its settlement can rely on. */
  predicate OwnerOk(m: Shared, pc: Pc) {
    match pc
    case Executing(id) => id < m.nextId && Held(m, id) && id !in m.ended
    case Deleting(id) => id < m.nextId && Held(m, id) && id in m.ended && !Cached(m.ended[id])
    case Completing(id, r) => id < m.nextId && Held(m, id) && id in m.ended && m.ended[id] == r && Cached(r)
    case _ => true
  }

  /** The table and its history agree. */
  ghost predicate TableOk(m: Shared) {
    && (m.row.Some? ==> m.row.value.id < m.nextId && m.row.value.id !in m.purged)
    && (m.row.Some? && m.row.value.status.Completed? ==>
        Succeeded(m, m.row.value.id) && m.ended[m.row.value.id] == m.row.value.status.response)
    && (forall id | id in m.purged :: id < m.nextId)
    && (forall id | id in m.ended :: id < m.nextId)
    && (forall id | Succeeded(m, id) :: InTableOrPurged(m, id))
    && (forall r | r in m.replays :: exists id :: Succeeded(m, id) && m.ended[id] == r)
  }

  predicate InTableOrPurged(m: Shared, id: nat) {
    (m.row.Some? && m.row.value.id == id) || id in m.purged
  }

  ghost predicate Invariant(w: World) {
    && TableOk(w.m)
    && (forall t | t in w.requests :: OwnerOk(w.m, w.requests[t]))
    && (forall t, u | t in w.requests && u in w.requests && t != u
                      && Owner(w.requests[t]) && Owner(w.requests[u]) ::
        w.requests[t].id != w.requests[u].id)
  }

  /** An operation keeps the table consistent and its own request right. */
  lemma OperationKeepsTable(m: Shared, pc: Pc, a: Action)
    requires !a.Arrive? && !a.Purge? && Enabled(World(m, map[a.t := pc]), a)
    requires TableOk(m) && OwnerOk(m, pc)
    ensures var (m', pc') := Operate(m, pc, a); TableOk(m') && OwnerOk(m', pc')
  {
    var (m', pc') := Operate(m, pc, a);
    forall r | r in m'.replays
      ensures exists id :: Succeeded(m', id) && m'.ended[id] == r
    {
      if r in m.replays {
        var id :| Succeeded(m, id) && m.ended[id] == r;
        assert Succeeded(m', id) && m'.ended[id] == r;
      } else {
        assert Succeeded(m', m.row.value.id);
      }
    }
    forall id | Succeeded(m', id)
      ensures InTableOrPurged(m', id)
    {
      if Succeeded(m, id) {
        assert InTableOrPurged(m, id);
      }
    }
  }

  /** An operation of one owner leaves every other owner's record alone. */
  lemma OperationSparesOthers(m: Shared, pc: Pc, a: Action, other: Pc)
    requires !a.Arrive? && !a.Purge? && Enabled(World(m, map[a.t := pc]), a)
    requires TableOk(m) && OwnerOk(m, pc) && OwnerOk(m, other)
    requires Owner(pc) && Owner(other) ==> pc.id != other.id
    ensures var (m', pc') := Operate(m, pc, a);
            OwnerOk(m', other) && (Owner(pc') && Owner(other) ==> pc'.id != other.id)
  {
  }

  lemma StepKeepsInvariant(w: World, a: Action)
    requires Invariant(w) && Enabled(w, a)
    ensures Invariant(Next(w, a))
  {
    var w' := Next(w, a);
    if a.Purge? {
      PurgeKeepsInvariant(w);
    } else if !a.Arrive? {
      var pc := At(w, a.t);
      OperationKeepsTable(w.m, pc, a);
      forall t | t in w.requests && t != a.t
        ensures OwnerOk(w'.m, w.requests[t])
        ensures Owner(w'.requests[a.t]) && Owner(w.requests[t]) ==> w'.requests[a.t].id != w.requests[t].id
      {
        OperationSparesOthers(w.m, pc, a, w.requests[t]);
      }
    }
  }

  lemma PurgeKeepsInvariant(w: World)
    requires Invariant(w) && Enabled(w, Purge)
    ensures Invariant(Next(w, Purge))
  {
    var w' := Next(w, Purge);
    forall id | Succeeded(w'.m, id)
      ensures InTableOrPurged(w'.m, id)
    {
      assert Succeeded(w.m, id) && InTableOrPurged(w.m, id);
    }
    forall r | r in w'.m.replays
      ensures exists id :: Succeeded(w'.m, id) && w'.m.ended[id] == r
    {
      var id :| Succeeded(w.m, id) && w.m.ended[id] == r;
      assert Succeeded(w'.m, id);
    }
    forall t | t in w'.requests
      ensures OwnerOk(w'.m, w'.requests[t])
    {
      assert OwnerOk(w.m, w.requests[t]);
    }
  }

  lemma {:induction false} RunKeepsInvariant(r: seq<World>, i: nat)
    requires IsRun(r) && r[0] == EMPTY && i < |r|
    ensures Invariant(r[i])
  {
    if i > 0 {
      RunKeepsInvariant(r, i - 1);
      assert Steps(r[i - 1], r[i - 1 + 1]);
      var a :| Enabled(r[i - 1], a) && r[i] == Next(r[i - 1], a);
      StepKeepsInvariant(r[i - 1], a);
    }
  }

  // ---- the promises of the middleware ----

  /** The requests running the handler as owners of a record. */
  function Executors(w: World): set<nat> {
    Those(w.requests, (pc: Pc) => pc.Executing?)
  }

  /** The records whose execution ended below 500. */
  function Successes(m: Shared): set<nat> {
    set id | id in m.ended && Cached(m.ended[id])
  }

  /**
   * As long as the key's record is never purged, and whatever else fails or crashes: at most one
   * claimed execution is in progress, at most one ever ends below 500, and every replay is that
   * execution's response, status, content type and body alike.
   */
  lemma AtMostOneExecution(r: seq<World>, i: nat)
    requires IsRun(r) && r[0] == EMPTY && i < |r|
    requires r[i].m.purged == {}
    ensures forall t, u | t in Executors(r[i]) && u in Executors(r[i]) :: t == u
    ensures forall j, k | j in Successes(r[i].m) && k in Successes(r[i].m) :: j == k
    ensures forall p, id | p in r[i].m.replays && id in Successes(r[i].m) :: p == r[i].m.ended[id]
    ensures r[i].m.replays != {} ==> Successes(r[i].m) != {}
  {
    RunKeepsInvariant(r, i);
    var w := r[i];
    forall t | t in Executors(w)
      ensures w.m.row == Some(Record(w.requests[t].id, InProgress))
    {
      assert OwnerOk(w.m, w.requests[t]);
    }
    forall j | j in Successes(w.m)
      ensures w.m.row.Some? && w.m.row.value.id == j
    {
      assert Succeeded(w.m, j) && InTableOrPurged(w.m, j);
    }
    forall p | p in w.m.replays
      ensures w.m.row.Some? && w.m.row.value.id in Successes(w.m) && p == w.m.ended[w.m.row.value.id]
    {
      var id :| Succeeded(w.m, id) && w.m.ended[id] == p;
      assert id in Successes(w.m);
    }
  }

  /** Every run: each purged record allows one more execution, and no more than one. */
  lemma ExecutionsBoundedByPurges(r: seq<World>, i: nat)
    requires IsRun(r) && r[0] == EMPTY && i < |r|
    ensures |Executors(r[i])| <= |r[i].m.purged| + 1
    ensures |Successes(r[i].m)| <= |r[i].m.purged| + 1
  {
    RunKeepsInvariant(r, i);
    var w := r[i];
    var possible := w.m.purged + if w.m.row.Some? then {w.m.row.value.id} else {};
    forall id | id in Successes(w.m)
      ensures id in possible
    {
      assert Succeeded(w.m, id) && InTableOrPurged(w.m, id);
    }
    SubsetSize(Successes(w.m), possible);
    forall t | t in Executors(w)
      ensures w.requests[t].id in possible
    {
      assert OwnerOk(w.m, w.requests[t]);
    }
    InjectiveCount(Executors(w), w.requests, possible);
  }

  lemma {:induction false} InjectiveCount(ts: set<nat>, requests: map<nat, Pc>, ids: set<nat>)
    requires forall t | t in ts :: t in requests && requests[t].Executing? && requests[t].id in ids
    requires forall t, u | t in ts && u in ts && t != u :: requests[t].id != requests[u].id
    ensures |ts| <= |ids|
  {
    if ts != {} {
      var t :| t in ts;
      InjectiveCount(ts - {t}, requests, ids - {requests[t].id});
    }
  }

  /**
   * Even with purges, database errors and crashes: a completed row holds the response of the
   * execution that owns that very row, and every replay is some claimed execution's exact response.
   */
  lemma ReplaysAreReal(r: seq<World>, i: nat)
    requires IsRun(r) && r[0] == EMPTY && i < |r|
    ensures var m := r[i].m;
            m.row.Some? && m.row.value.status.Completed? ==>
              m.row.value.id in Successes(m) && m.ended[m.row.value.id] == m.row.value.status.response
    ensures forall p | p in r[i].m.replays :: exists id :: id in Successes(r[i].m) && r[i].m.ended[id] == p
  {
    RunKeepsInvariant(r, i);
    forall p | p in r[i].m.replays
      ensures exists id :: id in Successes(r[i].m) && r[i].m.ended[id] == p
    {
      var id :| Succeeded(r[i].m, id) && r[i].m.ended[id] == p;
      assert id in Successes(r[i].m);
    }
  }

  /**
   * A slow executor whose row was purged never touches a newer claimant's row: whatever one owner's
   * settlement does, a row owned by somebody else stays as it is.
   */
  lemma SettlementSparesNewerRow(w: World, t: nat, applied: bool)
    requires Invariant(w) && Enabled(w, Settle(t, applied))
    requires w.m.row.Some? && w.m.row.value.id != At(w, t).id
    ensures Next(w, Settle(t, applied)).m == w.m
  {
  }

  // ---- what requests are answered ----

  /** A run with the actions that made it. */
  predicate IsTrace(r: seq<World>, actions: seq<Action>) {
    && |r| == |actions| + 1 && r[0] == EMPTY
    && forall i | 0 <= i < |actions| :: Enabled(r[i], actions[i]) && r[i + 1] == Next(r[i], actions[i])
  }

  /** Request `t` looks the record up, for the first time or after a lost claim, and the database answers. */
  predicate LooksUp(a: Action, t: nat) { a == Lookup(t) || a == LookupAgain(t, false) }

  /** The response in the table, if there is a completed record. */
  function StoredResponse(w: World): Option<Response> {
    if w.m.row.Some? && w.m.row.value.status.Completed? then Some(w.m.row.value.status.response) else None
  }

  /** What answers request `t`: what its lookup meets, the failure of its second lookup, or the handler's return. */
  predicate Answers(w: World, a: Action, t: nat, answer: Answer) {
    match answer
    case Replayed(x) => LooksUp(a, t) && StoredResponse(w) == Some(x)
    case Conflict =>
      || (a == Lookup(t) && w.m.row.Some? && w.m.row.value.status.InProgress?)
      || a == LookupAgain(t, true)
      || (a == LookupAgain(t, false) && StoredResponse(w) == None)
    case Handled(x) => a == Finish(t, x)
  }

  /** A request that has been answered makes no move that could answer it again. */
  predicate Settled(pc: Pc) { pc.Deleting? || pc.Completing? || pc.Done? }

  lemma {:induction false} AnsweredAreSettled(r: seq<World>, actions: seq<Action>, j: nat, t: nat)
    requires IsTrace(r, actions) && j < |r| && t in r[j].m.answers
    ensures Settled(At(r[j], t))
  {
    if t in r[j - 1].m.answers {
      AnsweredAreSettled(r, actions, j - 1, t);
    }
    assert r[j - 1 + 1] == Next(r[j - 1], actions[j - 1]);
  }

  /**
   * In every run: a request has an answer exactly if an earlier step gave it that answer.  So a completed
   * record is always replayed, and a conflict is only for those who meet a record in progress, or lose the
   * claim and then fail to look the record up or find none completed.
   */
  lemma {:induction false} AnsweredIff(r: seq<World>, actions: seq<Action>, j: nat, t: nat, answer: Answer)
    requires IsTrace(r, actions) && j < |r|
    ensures t in r[j].m.answers && r[j].m.answers[t] == answer <==>
            exists i :: 0 <= i < j && Answers(r[i], actions[i], t, answer)
  {
    if j > 0 {
      AnsweredIff(r, actions, j - 1, t, answer);
      StepAnswersIff(r[j - 1], actions[j - 1], t, answer);
      assert r[j - 1 + 1] == Next(r[j - 1], actions[j - 1]);
      if t in r[j - 1].m.answers {
        AnsweredAreSettled(r, actions, j - 1, t);
      }
    }
  }

  lemma StepAnswersIff(w: World, a: Action, t: nat, answer: Answer)
    requires Enabled(w, a)
    ensures Answers(w, a, t, answer) ==> !Settled(At(w, t))
    ensures t !in w.m.answers ==>
              (t in Next(w, a).m.answers && Next(w, a).m.answers[t] == answer <==> Answers(w, a, t, answer))
    ensures t in w.m.answers && Settled(At(w, t)) ==>
              t in Next(w, a).m.answers && Next(w, a).m.answers[t] == w.m.answers[t]
  {
  }

  /** The handler of a request starts exactly if its lookup or its claim fails, or it claims a free key. */
  lemma HandlerStartsIff(w: World, a: Action, t: nat, x: Response)
    requires Enabled(w, a) && !Enabled(w, Finish(t, x))
    ensures Enabled(Next(w, a), Finish(t, x)) <==>
            a == LookupError(t) || a == ClaimError(t, true) || a == ClaimError(t, false)
            || (a == Claim(t) && w.m.row.None?)
  {
  }

  lemma {:induction false} TraceKeepsInvariant(r: seq<World>, actions: seq<Action>, j: nat)
    requires IsTrace(r, actions) && j < |r|
    ensures Invariant(r[j])
  {
    if j > 0 {
      TraceKeepsInvariant(r, actions, j - 1);
      StepKeepsInvariant(r[j - 1], actions[j - 1]);
    }
  }

  lemma {:induction false} PurgedForGood(r: seq<World>, actions: seq<Action>, i: nat, j: nat)
    requires IsTrace(r, actions) && i <= j < |r|
    ensures r[i].m.purged <= r[j].m.purged
  {
    if i < j {
      PurgedForGood(r, actions, i, j - 1);
      assert r[j - 1 + 1] == Next(r[j - 1], actions[j - 1]);
    }
  }

  /** From its handler's return on a request waits to settle its record, until it has done so or crashed. */
  lemma {:induction false} WaitsToSettle(r: seq<World>, actions: seq<Action>, i: nat, j: nat, t: nat)
    requires IsTrace(r, actions) && i <= j < |r| && (At(r[i], t).Completing? || At(r[i], t).Deleting?)
    ensures At(r[j], t) == At(r[i], t) || At(r[j], t).Done?
  {
    if i < j {
      WaitsToSettle(r, actions, i, j - 1, t);
      assert r[j - 1 + 1] == Next(r[j - 1], actions[j - 1]);
    }
  }

  lemma CompletedStays(w: World, a: Action)
    requires Invariant(w) && Enabled(w, a) && StoredResponse(w).Some?
    ensures Next(w, a).m.row == w.m.row || w.m.row.value.id in Next(w, a).m.purged
  {
    if a.Settle? {
      assert OwnerOk(w.m, At(w, a.t));
    }
  }

  lemma KeptOneStep(r: seq<World>, actions: seq<Action>, k: nat)
    requires IsTrace(r, actions) && k < |actions| && StoredResponse(r[k]).Some?
    requires r[k].m.row.value.id !in r[k + 1].m.purged
    ensures r[k + 1].m.row == r[k].m.row
  {
    TraceKeepsInvariant(r, actions, k);
    CompletedStays(r[k], actions[k]);
  }

  lemma {:induction false} KeptUntilPurged(r: seq<World>, actions: seq<Action>, i: nat, j: nat)
    requires IsTrace(r, actions) && i <= j < |r| && StoredResponse(r[i]).Some?
    requires r[i].m.row.value.id !in r[j].m.purged
    ensures r[j].m.row == r[i].m.row
  {
    if i < j {
      PurgedForGood(r, actions, j - 1, j);
      KeptUntilPurged(r, actions, i, j - 1);
      KeptOneStep(r, actions, j - 1);
    }
  }

  /** What the settlement of an execution leaves in the table, if its record was not purged meanwhile. */
  lemma SettlementKeeps(r: seq<World>, actions: seq<Action>, f: nat, s: nat, t: nat, x: Response)
    requires IsTrace(r, actions) && f < s < |actions|
    requires At(r[f], t).Executing? && actions[f] == Finish(t, x) && actions[s] == Settle(t, true)
    requires At(r[f], t).id !in r[s].m.purged
    ensures r[s + 1].m.row ==
            if 0 < x.status < 500 then Some(Record(At(r[f], t).id, Completed(x))) else None
  {
    assert r[f + 1] == Next(r[f], actions[f]);
    WaitsToSettle(r, actions, f + 1, s, t);
    TraceKeepsInvariant(r, actions, s);
    assert OwnerOk(r[s].m, At(r[s], t));
  }

  /**
   * The promise of the middleware, over whole runs: once an execution that claimed the key has ended below
   * 500 with `x` and its record was completed, every lookup of every request is answered with `x`, until the
   * record is purged.  After any other status the settlement leaves the key free.
   */
  lemma SettledIsReplayed(r: seq<World>, actions: seq<Action>, f: nat, s: nat, l: nat, j: nat, t: nat, u: nat,
                          x: Response)
    requires IsTrace(r, actions) && f < s < l < j < |r|
    requires At(r[f], t).Executing? && actions[f] == Finish(t, x) && actions[s] == Settle(t, true)
    requires At(r[f], t).id !in r[l].m.purged && LooksUp(actions[l], u)
    ensures 0 < x.status < 500 ==> u in r[j].m.answers && r[j].m.answers[u] == Replayed(x)
    ensures !(0 < x.status < 500) ==> r[s + 1].m.row == None
  {
    PurgedForGood(r, actions, s, l);
    SettlementKeeps(r, actions, f, s, t, x);
    if 0 < x.status < 500 {
      KeptUntilPurged(r, actions, s + 1, l);
      assert Answers(r[l], actions[l], u, Replayed(x));
      AnsweredIff(r, actions, j, u, Replayed(x));
    }
  }

  // ---- a record nobody will ever settle ----

  /** The row is in progress and no request owns it. */
  predicate Orphaned(w: World) {
    && w.m.row.Some? && w.m.row.value.status.InProgress?
    && forall t | t in w.requests && Owner(w.requests[t]) :: w.requests[t].id != w.m.row.value.id
  }

  /**
   * How a record becomes an orphan: its owner crashes, or its delete or complete fails, or the insert
   * that made it reported an error although it was committed.
   */
  predicate Abandons(w: World, a: Action) {
    match a
    case Crash(t) => OwnsRow(w, t)
    case Settle(t, applied) => !applied && OwnsRow(w, t)
    case ClaimError(_, committed) => committed && w.m.row.None?
    case _ => false
  }

  /** Request `t` owns the record in the table. */
  predicate OwnsRow(w: World, t: nat) {
    Owner(At(w, t)) && w.m.row == Some(Record(At(w, t).id, InProgress))
  }

  /** A step orphans a record in exactly these ways, and ends an orphan's life in exactly one: the purge. */
  lemma OrphanedIff(w: World, a: Action)
    requires Invariant(w) && Enabled(w, a)
    ensures Orphaned(Next(w, a)) <==> if Orphaned(w) then !a.Purge? else Abandons(w, a)
    ensures Orphaned(w) && !a.Purge? ==> Next(w, a).m.row == w.m.row
  {
    var w' := Next(w, a);
    if Abandons(w, a) {
      AbandonedIsOrphaned(w, a);
    } else if !Orphaned(w) {
      OwnedStaysOwned(w, a);
    } else if !a.Purge? {
      OrphanStays(w, a);
    }
  }

  lemma AbandonedIsOrphaned(w: World, a: Action)
    requires Invariant(w) && Enabled(w, a) && Abandons(w, a)
    ensures !Orphaned(w) && Orphaned(Next(w, a))
  {
    if !a.ClaimError? {
      assert a.t in w.requests && Owner(w.requests[a.t]) && w.requests[a.t].id == w.m.row.value.id;
    }
    forall t | t in w.requests && Owner(w.requests[t])
      ensures OwnerOk(w.m, w.requests[t])
    {
    }
  }

  /** As long as nobody abandons it, a record in progress has its owner among the requests. */
  lemma OwnedStaysOwned(w: World, a: Action)
    requires Invariant(w) && Enabled(w, a) && !Orphaned(w) && !Abandons(w, a)
    ensures !Orphaned(Next(w, a))
  {
    var w' := Next(w, a);
    if w.m.row.Some? && w.m.row.value.status.InProgress? && !a.Purge? {
      var t :| t in w.requests && Owner(w.requests[t]) && w.requests[t].id == w.m.row.value.id;
      assert w'.m.row == w.m.row ==> t in w'.requests && Owner(w'.requests[t]) && w'.requests[t].id == w.m.row.value.id;
    } else if a.Claim? && w.m.row.None? {
      assert w'.requests[a.t] == Executing(w.m.nextId) && w'.m.row == Some(Record(w.m.nextId, InProgress));
    }
  }

  lemma OrphanStays(w: World, a: Action)
    requires Invariant(w) && Enabled(w, a) && Orphaned(w) && !a.Purge?
    ensures Orphaned(Next(w, a)) && Next(w, a).m.row == w.m.row
  {
    if a.Settle? {
      assert a.t in w.requests && Owner(w.requests[a.t]);
    }
  }

  /** The table's record is the same from world `i` to world `j`. */
  predicate SameRow(r: seq<World>, i: nat, j: nat)
    requires i <= j < |r|
  {
    r[i].m.row.Some? && forall k | i <= k <= j :: r[k].m.row == r[i].m.row
  }

  ghost predicate AbandoningStep(w: World, w': World) {
    exists a :: Enabled(w, a) && w' == Next(w, a) && Abandons(w, a)
  }

  /**
   * In every run: a key is blocked by an orphan exactly if some earlier step abandoned the record that has
   * been in the table ever since.
   */
  lemma OrphanedIffAbandoned(r: seq<World>, i: nat)
    requires IsRun(r) && r[0] == EMPTY && i < |r|
    ensures Orphaned(r[i]) <==>
            exists j :: 0 <= j < i && AbandoningStep(r[j], r[j + 1]) && SameRow(r, j + 1, i)
  {
    if Orphaned(r[i]) {
      var j := OrphanWasAbandoned(r, i);
      assert AbandoningStep(r[j], r[j + 1]);
    }
    if j :| 0 <= j < i && AbandoningStep(r[j], r[j + 1]) && SameRow(r, j + 1, i) {
      AbandonedForGood(r, j, i);
    }
  }

  /** An orphan after a step is one that the step made, or one that was there before. */
  lemma OrphanBefore(w: World, w': World)
    requires Invariant(w) && Steps(w, w') && Orphaned(w')
    ensures AbandoningStep(w, w') || (Orphaned(w) && w'.m.row == w.m.row)
  {
    var a :| Enabled(w, a) && w' == Next(w, a);
    OrphanedIff(w, a);
  }

  lemma OrphanAfter(w: World, w': World)
    requires Invariant(w) && Steps(w, w')
    requires AbandoningStep(w, w') || (Orphaned(w) && w'.m.row == w.m.row)
    ensures Orphaned(w')
  {
    if AbandoningStep(w, w') {
      var a :| Enabled(w, a) && w' == Next(w, a) && Abandons(w, a);
      AbandonedIsOrphaned(w, a);
    } else {
      var a :| Enabled(w, a) && w' == Next(w, a);
      assert !a.Purge?;
      OrphanStays(w, a);
    }
  }

  lemma {:induction false} OrphanWasAbandoned(r: seq<World>, i: nat) returns (j: nat)
    requires IsRun(r) && r[0] == EMPTY && i < |r| && Orphaned(r[i])
    ensures j < i && AbandoningStep(r[j], r[j + 1]) && SameRow(r, j + 1, i)
  {
    RunKeepsInvariant(r, i - 1);
    OrphanBefore(r[i - 1], r[i - 1 + 1]);
    if AbandoningStep(r[i - 1], r[i - 1 + 1]) {
      j := i - 1;
    } else {
      j := OrphanWasAbandoned(r, i - 1);
    }
  }

  lemma OrphanRunStep(r: seq<World>, k: nat)
    requires IsRun(r) && r[0] == EMPTY && k + 1 < |r|
    requires AbandoningStep(r[k], r[k + 1]) || (Orphaned(r[k]) && r[k + 1].m.row == r[k].m.row)
    ensures Orphaned(r[k + 1])
  {
    RunKeepsInvariant(r, k);
    assert Steps(r[k], r[k + 1]);
    OrphanAfter(r[k], r[k + 1]);
  }

  lemma {:induction false} AbandonedForGood(r: seq<World>, j: nat, i: nat)
    requires IsRun(r) && r[0] == EMPTY && j < i < |r|
    requires AbandoningStep(r[j], r[j + 1]) && SameRow(r, j + 1, i)
    ensures Orphaned(r[i])
  {
    var k: nat := i - 1;
    if j == k {
      OrphanRunStep(r, j);
    } else {
      AbandonedForGood(r, j, k);
      assert r[k + 1].m.row == r[j + 1].m.row == r[k].m.row;
      OrphanRunStep(r, k);
    }
  }

  // ---- a record that is not abandoned gets settled ----

  /** How many steps of its own the owner of the record has still to make: the handler's return and the settlement. */
  function StepsLeft(pc: Pc): nat {
    match pc
    case Executing(_) => 2
    case Deleting(_) => 1
    case Completing(_, _) => 1
    case _ => 0
  }

  /**
   * While its record is in progress the owner can always go on; each step of its own brings it nearer to
   * settling the record, and no step of anybody else sets it back.
   */
  lemma OwnerProgresses(w: World, t: nat, a: Action)
    requires Invariant(w) && OwnsRow(w, t) && Enabled(w, a) && !Abandons(w, a)
    ensures if At(w, t).Executing? then forall x :: Enabled(w, Finish(t, x)) else Enabled(w, Settle(t, true))
    ensures OwnsRow(Next(w, a), t) || Next(w, a).m.row.None? || Next(w, a).m.row.value.status.Completed?
    ensures OwnsRow(Next(w, a), t) ==>
              StepsLeft(At(Next(w, a), t)) == StepsLeft(At(w, t)) - if MovesRequest(a, t) then 1 else 0
  {
    if !a.Arrive? && !a.Purge? && a.t != t && Owner(At(w, a.t)) {
      assert w.requests[a.t].id != w.requests[t].id;
    }
  }

  predicate MovesRequest(a: Action, t: nat) { !a.Purge? && a.t == t }

  /** A run given by its actions, none of which abandons a record. */
  predicate IsKeptRun(r: seq<World>, actions: seq<Action>) {
    && |r| == |actions| + 1
    && forall i | 0 <= i < |actions| ::
         Enabled(r[i], actions[i]) && r[i + 1] == Next(r[i], actions[i]) && !Abandons(r[i], actions[i])
  }

  function MovesOf(actions: seq<Action>, t: nat): nat {
    if actions == [] then 0
    else MovesOf(actions[..|actions| - 1], t) + if MovesRequest(actions[|actions| - 1], t) then 1 else 0
  }

  /**
   * A key is not blocked for good: in every run on from a state where request `t` owns the record, and in
   * which nothing is abandoned, by the time the owner has made its two steps the record has been completed,
   * so that it is replayed, or removed, so that the key is free.
   */
  lemma {:induction false} OwnedKeySettles(r: seq<World>, actions: seq<Action>, t: nat)
    requires IsKeptRun(r, actions) && Invariant(r[0]) && OwnsRow(r[0], t)
    requires MovesOf(actions, t) >= StepsLeft(At(r[0], t))
    ensures exists i :: 0 <= i < |r| && (r[i].m.row.None? || r[i].m.row.value.status.Completed?)
  {
    OwnedOrSettled(r, actions, t);
  }

  lemma {:induction false} OwnedOrSettled(r: seq<World>, actions: seq<Action>, t: nat)
    requires IsKeptRun(r, actions) && Invariant(r[0]) && OwnsRow(r[0], t)
    ensures Invariant(r[|actions|])
    ensures || (exists i :: 0 <= i < |r| && (r[i].m.row.None? || r[i].m.row.value.status.Completed?))
            || (OwnsRow(r[|actions|], t)
                && StepsLeft(At(r[|actions|], t)) == StepsLeft(At(r[0], t)) - MovesOf(actions, t))
    decreases |actions|
  {
    if actions != [] {
      var n := |actions| - 1;
      OwnedOrSettled(r[..n + 1], actions[..n], t);
      StepKeepsInvariant(r[n], actions[n]);
      if OwnsRow(r[n], t) {
        OwnerProgresses(r[n], t, actions[n]);
        if !OwnsRow(r[n + 1], t) {
          assert r[n + 1].m.row.None? || r[n + 1].m.row.value.status.Completed?;
        }
      } else {
        var i :| 0 <= i < n + 1 && (r[..n + 1][i].m.row.None? || r[..n + 1][i].m.row.value.status.Completed?);
        assert r[i] == r[..n + 1][i];
      }
    }
  }

  /** Steps without the purge and without lookup or claim errors. */
  ghost predicate CalmSteps(w: World, w': World) {
    exists a :: Enabled(w, a) && !a.Purge? && !a.LookupError? && !a.ClaimError? && w' == Next(w, a)
  }

  /**
   * Until the purge removes it, an orphaned record blocks its key: no request starts the handler or
   * is served a replay, however many arrive.
   */
  lemma {:induction false} OrphanBlocksKey(r: seq<World>, i: nat)
    requires |r| > 0 && forall j | 0 <= j < |r| - 1 :: CalmSteps(r[j], r[j + 1])
    requires Orphaned(r[0]) && i < |r|
    ensures Orphaned(r[i]) && r[i].m.row == r[0].m.row
    ensures r[i].m.started == r[0].m.started && r[i].m.unprotected == r[0].m.unprotected
    ensures r[i].m.replays == r[0].m.replays
  {
    if i > 0 {
      OrphanBlocksKey(r, i - 1);
      assert CalmSteps(r[i - 1], r[i - 1 + 1]);
      var a :| Enabled(r[i - 1], a) && !a.Purge? && !a.LookupError? && !a.ClaimError? && r[i] == Next(r[i - 1], a);
      if !a.Arrive? && Owner(At(r[i - 1], a.t)) {
        assert r[i - 1].requests[a.t].id != r[i - 1].m.row.value.id;
      }
    }
  }

  // ---- the bound of one execution per purge is reached ----

  lemma Extend(r: seq<World>, a: Action) returns (r': seq<World>)
    requires IsRun(r) && Enabled(r[|r| - 1], a)
    ensures IsRun(r') && r'[0] == r[0] && r'[|r'| - 1] == Next(r[|r| - 1], a)
  {
    r' := r + [Next(r[|r| - 1], a)];
    forall i | 0 <= i < |r'| - 1
      ensures Steps(r'[i], r'[i + 1])
    {
      if i < |r| - 1 {
        assert Steps(r[i], r[i + 1]);
      }
    }
  }

  /** Request `t` arrives at a free key, claims it and returns `x`. */
  lemma Execute(r: seq<World>, t: nat, x: Response) returns (r': seq<World>)
    requires IsRun(r) && At(r[|r| - 1], t).Absent? && r[|r| - 1].m.row.None? && Cached(x)
    ensures IsRun(r') && r'[0] == r[0]
    ensures var m, m' := r[|r| - 1].m, r'[|r'| - 1].m;
            && m'.row == Some(Record(m.nextId, InProgress)) && m'.nextId == m.nextId + 1
            && m'.ended == m.ended[m.nextId := x] && m'.purged == m.purged
    ensures r'[|r'| - 1].requests == r[|r| - 1].requests[t := Completing(r[|r| - 1].m.nextId, x)]
  {
    r' := Extend(r, Arrive(t));
    r' := Extend(r', Lookup(t));
    r' := Extend(r', Claim(t));
    r' := Extend(r', Finish(t, x));
  }

  /** Record ids are handed out in order. */
  predicate Issued(id: nat, next: nat) { id < next }

  function FirstIds(n: nat): set<nat> { set id: nat | id < n && Issued(id, n) }

  lemma {:induction false} FirstIdsCount(n: nat)
    ensures |FirstIds(n)| == n
  {
    if n > 0 {
      FirstIdsCount(n - 1);
      assert FirstIds(n) == FirstIds(n - 1) + {n - 1};
    }
  }

  /** After `k` purges: requests 0 to `k` executed with responses `xs`, and the record of the last is in the table. */
  ghost predicate Purged(r: seq<World>, k: nat, xs: seq<Response>) {
    IsRun(r) && r[0] == EMPTY && PurgedWorld(r[|r| - 1], k, xs)
  }

  predicate PurgedWorld(w: World, k: nat, xs: seq<Response>) {
    && w.m.nextId == k + 1 && w.m.row == Some(Record(k, InProgress))
    && w.m.purged == FirstIds(k) && w.m.ended.Keys == FirstIds(k + 1) && w.requests.Keys == FirstIds(k + 1)
    && k < |xs| && forall i | 0 <= i <= k :: w.m.ended[i] == xs[i]
  }

  lemma PurgedNow(w: World, w': World, k: nat, xs: seq<Response>)
    requires PurgedWorld(w, k, xs) && k + 1 < |xs|
    requires w'.m.nextId == k + 2 && w'.m.row == Some(Record(k + 1, InProgress))
    requires w'.m.purged == w.m.purged + {k} && w'.m.ended == w.m.ended[k + 1 := xs[k + 1]]
    requires w'.requests == w.requests[k + 1 := Completing(k + 1, xs[k + 1])]
    ensures PurgedWorld(w', k + 1, xs)
  {
  }

  /** The purge, then one more execution. */
  lemma PurgeNext(r: seq<World>, k: nat, xs: seq<Response>) returns (r': seq<World>)
    requires Purged(r, k, xs) && k + 1 < |xs| && Cached(xs[k + 1])
    ensures Purged(r', k + 1, xs)
  {
    var w := r[|r| - 1];
    var freed := Extend(r, Purge);
    assert freed[|freed| - 1] == w.(m := w.m.(row := None, purged := w.m.purged + {k}));
    r' := Execute(freed, k + 1, xs[k + 1]);
    PurgedNow(w, r'[|r'| - 1], k, xs);
  }

  lemma FirstExecuted(xs: seq<Response>) returns (r: seq<World>)
    requires xs != [] && Cached(xs[0])
    ensures Purged(r, 0, xs)
  {
    r := Execute([EMPTY], 0, xs[0]);
  }

  lemma {:induction false} PurgeEach(xs: seq<Response>, k: nat) returns (r: seq<World>)
    requires k < |xs| && forall i | 0 <= i < |xs| :: Cached(xs[i])
    ensures Purged(r, k, xs)
  {
    if k == 0 {
      r := FirstExecuted(xs);
    } else {
      r := PurgeEach(xs, k - 1);
      r := PurgeNext(r, k - 1, xs);
    }
  }

  /**
   * The bound is tight for any number of purges: as many purges between execution and completion, and one
   * more execution succeeds, each with a response of its own.
   */
  lemma PurgesAllowMore(xs: seq<Response>) returns (r: seq<World>)
    requires xs != [] && forall i | 0 <= i < |xs| :: Cached(xs[i])
    ensures IsRun(r) && r[0] == EMPTY
    ensures var m := r[|r| - 1].m;
            && |m.purged| == |xs| - 1 && |Successes(m)| == |xs|
            && forall i | 0 <= i < |xs| :: i in Successes(m) && m.ended[i] == xs[i]
  {
    r := PurgeEach(xs, |xs| - 1);
    assert Successes(r[|r| - 1].m) == FirstIds(|xs|);
    FirstIdsCount(|xs|);
    FirstIdsCount(|xs| - 1);
  }
}
