/**
 * Several relays over one outbox row.  A claim leases the row for 120 seconds; the marks that end a
 * delivery test neither the lease nor the status of the row.
 */
module RelayLeases {
  import opened Prelude
  import opened Backoff
  import opened OutboxRelay

  /** What a relay remembers of its claim: the attempts it read, and when its lease ends. */
  datatype Holder = Holder(attempts: int, until: int)

  datatype World = World(row: Event, now: int, holders: map<nat, Holder>, tally: Tally)

  datatype Action =
    | Tick(elapsed: nat)
    | Claim(relay: nat)
    | Finish(relay: nat, outcome: Try)

  /** The mark a relay makes: it decides from the attempts it read, and writes to the row as it is now. */
  function Marked(e: Event, attempts: int, t: Try, maxAttempts: int, now: int): Event {
    match t
    case Internal => MarkPublished(e)
    case Accepted => MarkPublished(e)
    case Unparseable => MarkDeadLetter(e)
    case Denied => MarkedFailure(e, attempts, maxAttempts, now)
    case Refused => MarkedFailure(e, attempts, maxAttempts, now)
  }

  function MarkedFailure(e: Event, attempts: int, maxAttempts: int, now: int): Event {
    if attempts + 1 >= maxAttempts then MarkDeadLetter(e) else MarkRetry(e, now + Delay(attempts + 1))
  }

  predicate Enabled(w: World, a: Action) {
    match a
    case Tick(_) => true
    case Claim(r) => r !in w.holders && Due(w.row, w.now)
    case Finish(r, t) => r in w.holders && Possible(w.row, t)
  }

  /** A relay that crashes simply never finishes; its lease runs out. */
  function Next(w: World, a: Action, maxAttempts: int): World
    requires Enabled(w, a)
  {
    match a
    case Tick(d) => w.(now := w.now + d)
    case Claim(r) =>
      w.(row := Leased(w.row, w.now), holders := w.holders[r := Holder(w.row.attempts, w.now + LEASE)])
    case Finish(r, t) =>
      w.(row := Marked(w.row, w.holders[r].attempts, t, maxAttempts, w.now), holders := w.holders - {r},
         tally := Counted(w.tally, t))
  }

  /** The relay marks its outcome before its lease is over. */
  predicate Prompt(w: World, a: Action) {
    a.Finish? && a.relay in w.holders ==> w.now < w.holders[a.relay].until
  }

  predicate IsRun(run: seq<World>, actions: seq<Action>, maxAttempts: int) {
    && |run| == |actions| + 1
    && run[0].holders == map[] && run[0].row.status == Pending && run[0].row.attempts == 0 && run[0].tally == UNTRIED
    && forall i | 0 <= i < |actions| ::
         Enabled(run[i], actions[i]) && run[i + 1] == Next(run[i], actions[i], maxAttempts)
  }

  predicate AllPrompt(run: seq<World>, actions: seq<Action>)
    requires |run| == |actions| + 1
  {
    forall i | 0 <= i < |actions| :: Prompt(run[i], actions[i])
  }

  predicate Live(w: World, r: nat) { r in w.holders && w.now < w.holders[r].until }

  /** A lease that still runs is the only one, the row is as its holder read it, and it is not terminal. */
  ghost predicate Exclusive(w: World) {
    && (forall r | Live(w, r) ::
          && w.row.nextAttemptAt == Some(w.holders[r].until)
          && w.row.attempts == w.holders[r].attempts
          && !w.row.Terminal())
    && (forall r, s | Live(w, r) && Live(w, s) :: r == s)
  }

  ghost predicate Safe(w: World, maxAttempts: int) {
    Exclusive(w) && Consistent(w.row, w.tally, maxAttempts)
  }

  lemma StepKeepsSafe(w: World, a: Action, maxAttempts: int)
    requires Safe(w, maxAttempts) && Enabled(w, a) && Prompt(w, a)
    ensures Safe(Next(w, a, maxAttempts), maxAttempts)
    ensures a.Finish? ==> Next(w, a, maxAttempts).row == Processed(w.row, a.outcome, maxAttempts, w.now)
  {
    var w' := Next(w, a, maxAttempts);
    match a
    case Tick(d) =>
      assert forall r | Live(w', r) :: Live(w, r);
    case Claim(r) =>
      assert forall s | Live(w', s) && s != r :: Live(w, s);
    case Finish(r, t) =>
      assert Live(w, r);
      assert forall s | Live(w', s) :: Live(w, s) && s != r;
      ProcessingKeepsConsistent(w.row, w.tally, t, maxAttempts, w.now);
      assert w'.row == Processed(w.row, t, maxAttempts, w.now);
  }

  lemma {:induction false} PromptRunsAreSafe(run: seq<World>, actions: seq<Action>, maxAttempts: int, i: nat)
    requires IsRun(run, actions, maxAttempts) && AllPrompt(run, actions) && i < |run|
    ensures Safe(run[i], maxAttempts)
  {
    if i > 0 {
      PromptRunsAreSafe(run, actions, maxAttempts, i - 1);
      StepKeepsSafe(run[i - 1], actions[i - 1], maxAttempts);
    }
  }

  /**
   * With any number of relays, crashing at any time, as long as every mark is made within its lease:
   * at most one relay holds the row, it is marked at most the limit of times, and once it is
   * published or dead-lettered it stays exactly as it is.
   */
  lemma {:induction false} TerminalForever(run: seq<World>, actions: seq<Action>, maxAttempts: int, i: nat, j: nat)
    requires IsRun(run, actions, maxAttempts) && AllPrompt(run, actions) && i <= j < |run|
    ensures forall r, s | Live(run[j], r) && Live(run[j], s) :: r == s
    ensures run[j].tally.Tries() <= Limit(maxAttempts)
    ensures run[i].row.Terminal() ==> run[j].row == run[i].row
  {
    PromptRunsAreSafe(run, actions, maxAttempts, j);
    if i < j {
      TerminalForever(run, actions, maxAttempts, i, j - 1);
      PromptRunsAreSafe(run, actions, maxAttempts, j - 1);
      assert Prompt(run[j - 1], actions[j - 1]);
    }
  }

  // ---- how long a delivery may take ----

  /** Every mark is made at most `d` after its claim. */
  predicate AllWithin(run: seq<World>, actions: seq<Action>, d: int)
    requires |run| == |actions| + 1
  {
    forall i | 0 <= i < |actions| && actions[i].Finish? && actions[i].relay in run[i].holders ::
      run[i].now <= run[i].holders[actions[i].relay].until - LEASE + d
  }

  /** Once published or dead-lettered, the row stays exactly as it is. */
  predicate SettledStays(run: seq<World>) {
    forall i, j | 0 <= i <= j < |run| && run[i].row.Terminal() :: run[j].row == run[i].row
  }

  lemma Step(run: seq<World>, actions: seq<Action>, maxAttempts: int, a: Action)
    returns (run': seq<World>, actions': seq<Action>)
    requires IsRun(run, actions, maxAttempts) && Enabled(run[|run| - 1], a)
    ensures IsRun(run', actions', maxAttempts) && actions' == actions + [a]
    ensures run' == run + [Next(run[|run| - 1], a, maxAttempts)]
  {
    run', actions' := run + [Next(run[|run| - 1], a, maxAttempts)], actions + [a];
  }

  const NEW := Event(true, true, 0, Pending, 0, None)

  /**
   * A delivery that takes `d`, no shorter than the lease: another relay claims the row in between and
   * publishes it, and the late mark of the first changes the published row.
   */
  lemma LateMark(d: int, maxAttempts: int) returns (run: seq<World>, actions: seq<Action>)
    requires d >= LEASE
    ensures IsRun(run, actions, maxAttempts) && |run| == 6 && AllWithin(run, actions, d)
    ensures actions == [Claim(0), Tick(d), Claim(1), Finish(1, Accepted), Finish(0, Refused)]
    ensures run[4].row.status == Published && run[4].tally.settledBy == Some(Accepted)
    ensures run[5] == World(MarkedFailure(run[4].row, 0, maxAttempts, d), d, map[], run[5].tally)
    ensures run[4].row == MarkPublished(NEW)
  {
    run, actions := [World(NEW, 0, map[], UNTRIED)], [];
    run, actions := Step(run, actions, maxAttempts, Claim(0));
    run, actions := Step(run, actions, maxAttempts, Tick(d));
    run, actions := Step(run, actions, maxAttempts, Claim(1));
    run, actions := Step(run, actions, maxAttempts, Finish(1, Accepted));
    run, actions := Step(run, actions, maxAttempts, Finish(0, Refused));
    assert run[5].holders == map[];
  }

  /**
   * Contrary to what the schema says of dead_letter, and for every delay from the lease on: the late mark
   * makes the published event claimable again, and the adapter accepts it a second time.
   */
  lemma LateMarkReopens(d: int, maxAttempts: int) returns (run: seq<World>, actions: seq<Action>)
    requires d >= LEASE && maxAttempts > 1
    ensures IsRun(run, actions, maxAttempts) && |run| == 9 && AllWithin(run[..6], actions[..5], d)
    ensures run[4].row.status == Published && run[5].row.status == Failed
    ensures actions[3] == Finish(1, Accepted) && actions[7] == Finish(2, Accepted)
  {
    run, actions := LateMark(d, maxAttempts);
    var six, five := run, actions;
    ExactBackoff(1);
    assert Delay(1) == 2 * SECOND;
    run, actions := Step(run, actions, maxAttempts, Tick(2 * SECOND));
    run, actions := Step(run, actions, maxAttempts, Claim(2));
    run, actions := Step(run, actions, maxAttempts, Finish(2, Accepted));
    assert run[..6] == six && actions[..5] == five;
  }

  /**
   * Exactly how long a delivery may take: settled events stay settled in every run if and only if it is
   * less than the lease.
   */
  lemma SettledStaysIff(d: int, maxAttempts: int)
    ensures d < LEASE <==>
            forall run: seq<World>, actions: seq<Action> |
              IsRun(run, actions, maxAttempts) && AllWithin(run, actions, d) :: SettledStays(run)
  {
    if d < LEASE {
      forall run: seq<World>, actions: seq<Action> | IsRun(run, actions, maxAttempts) && AllWithin(run, actions, d)
        ensures SettledStays(run)
      {
        assert AllPrompt(run, actions);
        forall i, j | 0 <= i <= j < |run| && run[i].row.Terminal()
          ensures run[j].row == run[i].row
        {
          TerminalForever(run, actions, maxAttempts, i, j);
        }
      }
    } else {
      var run, actions := LateMark(d, maxAttempts);
      assert run[4].row.Terminal() && run[5].row != run[4].row;
      assert !SettledStays(run);
    }
  }
}
