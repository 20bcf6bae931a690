/** The in-memory fixed-window limiter under any number of threads. */
module LimiterInterleavings {
  import opened Prelude
  import RateLimiter

  /**
   * One bucket.  Every atomic operation of AllowRetryAfter is one step: read the clock, load windowEnd,
   * compare-and-swap windowEnd, store 0 into count, add 1 to count, and (for a refused request) load
   * windowEnd again.  A run is any interleaving of those steps.
   */
  datatype Config = Config(limit: nat, window: nat) {
    predicate Valid() { window > 0 }
  }

  /** Where a thread stands inside AllowRetryAfter; `now` is the clock value it read on entry. */
  datatype Pc =
    | Idle
    | Started(now: int)            // about to load windowEnd
    | Expired(now: int, seen: int) // saw an expired window, about to compare-and-swap
    | Won(now: int)                // won the swap, about to store 0
    | Counting(now: int)           // about to add 1
    | Refused(now: int)            // over the limit, about to load windowEnd for the retry hint

  /** The bucket and the clock, the threads, and three history counters. */
  datatype State = State(
    clock: int,
    count: int,
    windowEnd: int,
    threads: map<nat, Pc>,
    admitted: nat, // requests answered true
    wins: nat,     // successful compare-and-swaps
    stores: nat)   // executed Store(0)s

  datatype Action =
    | Tick(elapsed: nat)
    | Begin(t: nat)
    | Load(t: nat)
    | Swap(t: nat)
    | Store(t: nat)
    | Add(t: nat)
    | Answer(t: nat)

  function At(s: State, t: nat): Pc {
    if t in s.threads then s.threads[t] else Idle
  }

  predicate Enabled(s: State, a: Action) {
    match a
    case Tick(_) => true
    case Begin(t) => At(s, t).Idle?
    case Load(t) => At(s, t).Started?
    case Swap(t) => At(s, t).Expired?
    case Store(t) => At(s, t).Won?
    case Add(t) => At(s, t).Counting?
    case Answer(t) => At(s, t).Refused?
  }

  function Next(c: Config, s: State, a: Action): State
    requires Enabled(s, a)
  {
    match a
    case Tick(d) => s.(clock := s.clock + d)
    case Begin(t) => s.(threads := s.threads[t := Started(s.clock)])
    case Load(t) =>
      var now := At(s, t).now;
      if now >= s.windowEnd then s.(threads := s.threads[t := Expired(now, s.windowEnd)])
      else s.(threads := s.threads[t := Counting(now)])
    case Swap(t) =>
      var Expired(now, seen) := At(s, t);
      if s.windowEnd == seen then
        s.(windowEnd := now + c.window, wins := s.wins + 1, threads := s.threads[t := Won(now)])
      else s.(threads := s.threads[t := Counting(now)])
    case Store(t) =>
      s.(count := 0, stores := s.stores + 1, threads := s.threads[t := Counting(At(s, t).now)])
    case Add(t) =>
      var now := At(s, t).now;
      if s.count + 1 <= c.limit then
        s.(count := s.count + 1, admitted := s.admitted + 1, threads := s.threads[t := Idle])
      else s.(count := s.count + 1, threads := s.threads[t := Refused(now)])
    case Answer(t) => s.(threads := s.threads[t := Idle])
  }

  ghost predicate Steps(c: Config, s: State, s': State) {
    exists a :: Enabled(s, a) && s' == Next(c, s, a)
  }

  ghost predicate IsRun(c: Config, r: seq<State>) {
    && |r| > 0
    && forall i | 0 <= i < |r| - 1 :: Steps(c, r[i], r[i + 1])
  }

  /** No thread is inside the limiter; the bucket itself may be in any condition. */
  predicate Quiet(s: State) {
    && s.count >= 0
    && s.admitted == 0 && s.wins == 0 && s.stores == 0
    && s.threads == map[]
  }

  /** A bucket never used before, or whose window is over and counter reset. */
  predicate Fresh(s: State) { Quiet(s) && s.count == 0 && s.windowEnd <= s.clock }

  /** The threads between their winning swap and their Store(0). */
  function Resetting(s: State): set<nat> {
    set t | t in s.threads && s.threads[t].Won?
  }

  /** What every interleaving keeps, for runs that start at clock value `start`. */
  ghost predicate Invariant(c: Config, start: int, s: State) {
    && ThreadsInTime(start, s)
    && s.wins == s.stores + |Resetting(s)|
    && WindowsSpaced(c, start, s)
    && AdmissionsCounted(c, s)
  }

  /** Clock values read by running threads lie between the start of the run and now. */
  ghost predicate ThreadsInTime(start: int, s: State) {
    && start <= s.clock
    && (forall t | t in s.threads && !s.threads[t].Idle? :: start <= s.threads[t].now <= s.clock)
    && (forall t | t in s.threads && s.threads[t].Expired? :: s.threads[t].seen <= s.threads[t].now)
  }

  /** Each winning swap moves windowEnd forward by at least one window. */
  ghost predicate WindowsSpaced(c: Config, start: int, s: State) {
    s.wins > 0 ==> start + s.wins * c.window <= s.windowEnd <= s.clock + c.window
  }

  /** Since the last Store(0) at most min(count, limit) requests were admitted. */
  ghost predicate AdmissionsCounted(c: Config, s: State) {
    s.count >= 0 && s.admitted <= s.stores * c.limit + Min(s.count, c.limit)
  }

  lemma StepKeepsThreadsInTime(c: Config, start: int, s: State, a: Action)
    requires ThreadsInTime(start, s) && Enabled(s, a)
    ensures ThreadsInTime(start, Next(c, s, a))
  {
  }

  lemma StepKeepsWins(c: Config, s: State, a: Action)
    requires s.wins == s.stores + |Resetting(s)| && Enabled(s, a)
    ensures Next(c, s, a).wins == Next(c, s, a).stores + |Resetting(Next(c, s, a))|
  {
    var s' := Next(c, s, a);
    if a.Swap? && s.windowEnd == At(s, a.t).seen {
      assert Resetting(s') == Resetting(s) + {a.t};
    } else if a.Store? {
      assert Resetting(s') == Resetting(s) - {a.t};
    } else {
      assert Resetting(s') == Resetting(s);
    }
  }

  lemma StepKeepsWindowsSpaced(c: Config, start: int, s: State, a: Action)
    requires c.Valid() && ThreadsInTime(start, s) && WindowsSpaced(c, start, s) && Enabled(s, a)
    ensures WindowsSpaced(c, start, Next(c, s, a))
  {
    if a.Swap? && s.windowEnd == At(s, a.t).seen {
      assert start <= At(s, a.t).now <= s.clock;
      assert (s.wins + 1) * c.window == s.wins * c.window + c.window;
    } else {
      var s' := Next(c, s, a);
      assert s'.wins == s.wins && s'.windowEnd == s.windowEnd && s'.clock >= s.clock;
    }
  }

  lemma StepKeepsAdmissionsCounted(c: Config, s: State, a: Action)
    requires AdmissionsCounted(c, s) && Enabled(s, a)
    ensures AdmissionsCounted(c, Next(c, s, a))
  {
    var s' := Next(c, s, a);
    if a.Store? {
      assert (s.stores + 1) * c.limit == s.stores * c.limit + c.limit;
    } else {
      assert s'.stores == s.stores;
    }
  }

  lemma StepKeepsInvariant(c: Config, start: int, s: State, a: Action)
    requires c.Valid() && Invariant(c, start, s) && Enabled(s, a)
    ensures Invariant(c, start, Next(c, s, a))
  {
    StepKeepsThreadsInTime(c, start, s, a);
    StepKeepsWins(c, s, a);
    StepKeepsWindowsSpaced(c, start, s, a);
    StepKeepsAdmissionsCounted(c, s, a);
  }

  lemma {:induction false} RunKeepsInvariant(c: Config, r: seq<State>, i: nat)
    requires c.Valid() && IsRun(c, r) && Quiet(r[0]) && i < |r|
    ensures Invariant(c, r[0].clock, r[i])
  {
    if i == 0 {
      assert Resetting(r[0]) == {};
    } else {
      RunKeepsInvariant(c, r, i - 1);
      assert Steps(c, r[i - 1], r[i - 1 + 1]);
      var a :| Enabled(r[i - 1], a) && r[i] == Next(c, r[i - 1], a);
      StepKeepsInvariant(c, r[0].clock, r[i - 1], a);
    }
  }

  /**
   * However the threads interleave, a run that lasts from clock value T0 to T admits at most
   * limit * ((T - T0) / window + 2) requests.
   */
  lemma AdmissionBound(c: Config, r: seq<State>)
    requires c.Valid() && IsRun(c, r) && Quiet(r[0])
    ensures var last := r[|r| - 1];
            last.admitted <= c.limit * ((last.clock - r[0].clock) / c.window + 2)
  {
    var last := r[|r| - 1];
    RunKeepsInvariant(c, r, |r| - 1);
    var windows := (last.clock - r[0].clock) / c.window;
    WinsBound(last.wins, last.clock - r[0].clock, c.window);
    ScaleMonotone(last.stores + 1, windows + 2, c.limit);
  }

  /** A span that holds `wins` windows but for the last one has at least wins - 1 whole windows. */
  lemma WinsBound(wins: nat, span: nat, window: nat)
    requires window > 0 && (wins > 0 ==> wins * window <= span + window)
    ensures wins <= span / window + 1
  {
    var whole := span / window;
    assert (whole + 2) * window == whole * window + window + window;
    if wins > whole + 1 {
      ScaleMonotone(whole + 2, wins, window);
    }
  }

  /**
   * Between two consecutive Store(0)s at most `limit` requests are admitted: two points of a run
   * with the same number of stores are at most `limit` admissions apart.
   */
  lemma {:induction false} LimitBetweenStores(c: Config, r: seq<State>, i: nat, j: nat)
    requires c.Valid() && IsRun(c, r) && Quiet(r[0]) && i <= j < |r|
    requires r[i].stores == r[j].stores
    ensures r[j].admitted - r[i].admitted <= Min(r[j].count, c.limit) - Min(r[i].count, c.limit) <= c.limit
  {
    RunKeepsInvariant(c, r, i);
    if i < j {
      assert Steps(c, r[j - 1], r[j - 1 + 1]);
      StoresGrow(c, r, i, j - 1);
      LimitBetweenStores(c, r, i, j - 1);
    }
  }

  lemma {:induction false} StoresGrow(c: Config, r: seq<State>, i: nat, j: nat)
    requires IsRun(c, r) && i <= j < |r|
    ensures r[i].stores <= r[j].stores
  {
    if i < j {
      StoresGrow(c, r, i, j - 1);
      assert Steps(c, r[j - 1], r[j - 1 + 1]);
    }
  }

  // ---- what decides a request ----

  /** A run with the actions that made it. */
  predicate IsTrace(c: Config, r: seq<State>, actions: seq<Action>) {
    && |r| == |actions| + 1
    && forall i | 0 <= i < |actions| :: Enabled(r[i], actions[i]) && r[i + 1] == Next(c, r[i], actions[i])
  }

  /** How many requests were counted since the last reset, or since the start with `start` on the counter. */
  function CountedSince(actions: seq<Action>, start: int): int {
    if actions == [] then start
    else
      var before := CountedSince(actions[..|actions| - 1], start);
      match actions[|actions| - 1]
      case Store(_) => 0
      case Add(_) => before + 1
      case _ => before
  }

  lemma {:induction false} CountIsCounted(c: Config, r: seq<State>, actions: seq<Action>, i: nat)
    requires IsTrace(c, r, actions) && i < |r|
    ensures r[i].count == CountedSince(actions[..i], r[0].count)
  {
    if i > 0 {
      CountIsCounted(c, r, actions, i - 1);
      assert actions[..i][..i - 1] == actions[..i - 1];
    }
  }

  /**
   * In every interleaving a request is admitted exactly if, when it is counted, at most `limit` requests were
   * counted since the last reset, itself included; and no other step admits one.
   */
  lemma AdmittedIff(c: Config, r: seq<State>, actions: seq<Action>, i: nat)
    requires IsTrace(c, r, actions) && i < |actions|
    ensures r[i + 1].admitted - r[i].admitted ==
            if actions[i].Add? && CountedSince(actions[..i + 1], r[0].count) <= c.limit then 1 else 0
    ensures actions[i].Add? ==> (At(r[i + 1], actions[i].t).Idle? <==> r[i + 1].admitted > r[i].admitted)
  {
    CountIsCounted(c, r, actions, i + 1);
  }

  /** The operations a request has at most still to make. */
  function StepsLeft(pc: Pc): nat {
    match pc
    case Started(_) => 5
    case Expired(_, _) => 4
    case Won(_) => 3
    case Counting(_) => 2
    case Refused(_) => 1
    case Idle => 0
  }

  /**
   * Nobody waits for anybody: each operation brings its own request nearer to its end, whatever the others do,
   * and none moves another's.  On its way each request is counted once.
   */
  lemma WaitFree(c: Config, s: State, a: Action, t: nat)
    requires Enabled(s, a)
    ensures !a.Tick? && !a.Begin? && a.t == t ==> StepsLeft(At(Next(c, s, a), t)) < StepsLeft(At(s, t))
    ensures a.Tick? || a.t != t ==> At(Next(c, s, a), t) == At(s, t)
    ensures StepsLeft(At(s, t)) >= 2 && StepsLeft(At(Next(c, s, a), t)) <= 1 <==> a == Add(t)
  {
  }

  /** The next operation of a request under way. */
  function Own(s: State, t: nat): Action
    requires !At(s, t).Idle?
    ensures Enabled(s, Own(s, t))
  {
    match At(s, t)
    case Started(_) => Load(t)
    case Expired(_, _) => Swap(t)
    case Won(_) => Store(t)
    case Counting(_) => Add(t)
    case Refused(_) => Answer(t)
  }

  /** Request `t` runs on alone to its end. */
  function Alone(c: Config, s: State, t: nat): State
    decreases StepsLeft(At(s, t))
  {
    if At(s, t).Idle? then s else WaitFree(c, s, Own(s, t), t); Alone(c, Next(c, s, Own(s, t)), t)
  }

  /** A request that meets no other does what the limiter does one request at a time. */
  lemma AloneIsTouch(c: Config, s: State, t: nat)
    requires At(s, t).Idle?
    ensures var s' := Alone(c, Next(c, s, Begin(t)), t);
            && RateLimiter.Window(s'.count, s'.windowEnd)
               == RateLimiter.Touch(RateLimiter.Window(s.count, s.windowEnd), c.window, s.clock)
            && s'.admitted == s.admitted + (if s'.count <= c.limit then 1 else 0)
            && At(s', t).Idle?
  {
    var started := Next(c, s, Begin(t));
    var loaded := Next(c, started, Load(t));
    var counting := loaded;
    if s.clock >= s.windowEnd {
      counting := Next(c, Next(c, loaded, Swap(t)), Store(t));
      assert Alone(c, loaded, t) == Alone(c, Next(c, loaded, Swap(t)), t) == Alone(c, counting, t);
    }
    assert Alone(c, started, t) == Alone(c, loaded, t) == Alone(c, counting, t);
    var counted := Next(c, counting, Add(t));
    assert Alone(c, counting, t) == Alone(c, counted, t);
    if At(counted, t).Refused? {
      assert Alone(c, counted, t) == Alone(c, Next(c, counted, Answer(t)), t);
    }
  }

  // ---- the bound is reached ----

  predicate OnlyTwo(r: seq<State>) {
    forall i | 0 <= i < |r| :: r[i].threads.Keys <= {0, 1}
  }

  lemma Extend(c: Config, r: seq<State>, a: Action) returns (r': seq<State>)
    requires IsRun(c, r) && OnlyTwo(r) && Enabled(r[|r| - 1], a) && (a.Tick? || a.t <= 1)
    ensures IsRun(c, r') && OnlyTwo(r') && r'[0] == r[0] && r'[|r'| - 1] == Next(c, r[|r| - 1], a)
  {
    r' := r + [Next(c, r[|r| - 1], a)];
    forall i | 0 <= i < |r'| - 1
      ensures Steps(c, r'[i], r'[i + 1])
    {
      if i < |r| - 1 {
        assert Steps(c, r[i], r[i + 1]);
      }
    }
  }

  /** The bucket, the counters and threads 0 and 1 at the end of a run. */
  ghost predicate Ends(c: Config, r: seq<State>, clock: int, count: int, end: int, first: Pc, admitted: nat) {
    && IsRun(c, r) && OnlyTwo(r)
    && var s := r[|r| - 1];
       s.clock == clock && s.count == count && s.windowEnd == end && s.admitted == admitted
       && At(s, 0) == first && At(s, 1) == Idle
  }

  /** Thread 1 makes `n` more requests one after the other, all within the limit. */
  lemma {:induction false} AdmitMore(c: Config, r: seq<State>, clock: int, count: nat, end: int, first: Pc,
                                     admitted: nat, n: nat) returns (r': seq<State>)
    requires Ends(c, r, clock, count, end, first, admitted) && clock < end && count + n <= c.limit
    ensures Ends(c, r', clock, count + n, end, first, admitted + n) && r'[0] == r[0]
  {
    if n == 0 {
      r' := r;
    } else {
      r' := AdmitMore(c, r, clock, count, end, first, admitted, n - 1);
      r' := Extend(c, r', Begin(1));
      r' := Extend(c, r', Load(1));
      r' := Extend(c, r', Add(1));
    }
  }

  /** Thread 0 begins a window: it wins the swap and is about to reset the counter. */
  lemma OpenWindow(c: Config, r: seq<State>, clock: int, count: int, end: int, admitted: nat) returns (r': seq<State>)
    requires Ends(c, r, clock, count, end, Idle, admitted) && end <= clock
    ensures Ends(c, r', clock, count, clock + c.window, Won(clock), admitted) && r'[0] == r[0]
  {
    r' := Extend(c, r, Begin(0));
    r' := Extend(c, r', Load(0));
    r' := Extend(c, r', Swap(0));
  }

  /** After `k` more windows: in the first one twice the limit, in each later one once the limit. */
  lemma {:induction false} FillWindows(c: Config, k: nat) returns (r: seq<State>)
    requires c.limit > 0 && c.window > 0
    ensures Ends(c, r, k * c.window, c.limit, (k + 1) * c.window, Idle, c.limit * (k + 2))
    ensures r[0] == State(0, 0, 0, map[], 0, 0, 0)
  {
    var admitted, clock := c.limit * (k + 1), k * c.window;
    if k == 0 {
      r := [State(0, 0, 0, map[], 0, 0, 0)];
      r := OpenWindow(c, r, 0, 0, 0, 0);
      r := AdmitMore(c, r, 0, 0, c.window, Won(0), 0, c.limit);
    } else {
      r := FillWindows(c, k - 1);
      assert k * c.window == (k - 1) * c.window + c.window;
      r := Extend(c, r, Tick(c.window));
      r := OpenWindow(c, r, clock, c.limit, clock, admitted);
    }
    assert (k + 1) * c.window == clock + c.window && c.limit * (k + 2) == admitted + c.limit;
    r := Extend(c, r, Store(0));
    r := Extend(c, r, Add(0));
    r := AdmitMore(c, r, clock, 1, clock + c.window, Idle, admitted + 1, c.limit - 1);
  }

  /**
   * The bound is met with equality, for every limit, every window and every number of windows, by two
   * threads on a fresh bucket: in the first window `limit` requests count between the winning swap and its
   * Store(0), and `limit` more after.
   */
  lemma BoundIsReached(c: Config, k: nat) returns (r: seq<State>)
    requires c.Valid()
    ensures IsRun(c, r) && Fresh(r[0]) && OnlyTwo(r)
    ensures var last := r[|r| - 1];
            && last.clock - r[0].clock == k * c.window
            && (last.clock - r[0].clock) / c.window == k
            && last.admitted == c.limit * (k + 2)
  {
    if c.limit == 0 {
      r := [State(0, 0, 0, map[], 0, 0, 0)];
      r := Extend(c, r, Tick(k * c.window));
    } else {
      r := FillWindows(c, k);
    }
    assert (k * c.window) / c.window == k by {
      Quotient(k, c.window);
    }
  }

  lemma Quotient(k: nat, w: nat)
    requires w > 0
    ensures (k * w) / w == k
  {
    var q := (k * w) / w;
    assert q * w <= k * w < (q + 1) * w;
    if q < k {
      ScaleMonotone(q + 1, k, w);
    } else if q > k {
      ScaleMonotone(k + 1, q, w);
    }
  }

  // ---- when a window admits no more than its limit ----

  /** The counter never goes up while some thread is between its winning swap and its Store(0). */
  ghost predicate Undisturbed(r: seq<State>) {
    forall i | 0 <= i < |r| - 1 && Resetting(r[i]) != {} :: r[i + 1].count != r[i].count + 1
  }

  /** Before the first winning swap no request has got as far as counting. */
  ghost predicate NothingCounted(start: int, s: State) {
    s.wins == 0 ==>
      && s.windowEnd <= start
      && forall t | t in s.threads ::
           s.threads[t].Idle? || s.threads[t].Started? || (s.threads[t].Expired? && s.threads[t].seen == s.windowEnd)
  }

  /** Every admission belongs to a window whose counter was reset. */
  ghost predicate PerWindow(c: Config, s: State) {
    if s.stores == 0 then s.admitted == 0 else s.admitted <= (s.stores - 1) * c.limit + Min(s.count, c.limit)
  }

  lemma StepKeepsNothingCounted(c: Config, start: int, s: State, a: Action)
    requires NothingCounted(start, s) && ThreadsInTime(start, s) && Enabled(s, a)
    ensures NothingCounted(start, Next(c, s, a))
  {
  }

  lemma StepKeepsPerWindow(c: Config, start: int, s: State, a: Action)
    requires Invariant(c, start, s) && NothingCounted(start, s) && PerWindow(c, s) && Enabled(s, a)
    requires Resetting(s) != {} ==> Next(c, s, a).count != s.count + 1
    ensures PerWindow(c, Next(c, s, a))
  {
    if a.Store? {
      assert s.stores > 0 ==> s.stores * c.limit == (s.stores - 1) * c.limit + c.limit;
    } else if a.Add? {
      assert a.t in s.threads && s.threads[a.t].Counting?;
      assert Resetting(s) == {} && s.stores > 0;
    }
  }

  lemma {:induction false} RunKeepsPerWindow(c: Config, r: seq<State>, i: nat)
    requires c.Valid() && IsRun(c, r) && Fresh(r[0]) && Undisturbed(r) && i < |r|
    ensures NothingCounted(r[0].clock, r[i]) && PerWindow(c, r[i])
  {
    if i > 0 {
      RunKeepsPerWindow(c, r, i - 1);
      RunKeepsInvariant(c, r, i - 1);
      assert Steps(c, r[i - 1], r[i - 1 + 1]);
      var a :| Enabled(r[i - 1], a) && r[i] == Next(c, r[i - 1], a);
      StepKeepsNothingCounted(c, r[0].clock, r[i - 1], a);
      assert Resetting(r[i - 1]) != {} ==> r[i - 1 + 1].count != r[i - 1].count + 1;
      StepKeepsPerWindow(c, r[0].clock, r[i - 1], a);
    }
  }

  /**
   * Counting during a reset is the only way a window admits more than its limit: in a run on a fresh bucket
   * without it, at most `limit` requests are admitted per window begun, and windows begun are at most one
   * more than those elapsed.
   */
  lemma WindowsRespected(c: Config, r: seq<State>)
    requires c.Valid() && IsRun(c, r) && Fresh(r[0]) && Undisturbed(r)
    ensures var last := r[|r| - 1];
            && last.admitted <= c.limit * last.wins
            && last.admitted <= c.limit * ((last.clock - r[0].clock) / c.window + 1)
  {
    var last := r[|r| - 1];
    RunKeepsInvariant(c, r, |r| - 1);
    RunKeepsPerWindow(c, r, |r| - 1);
    WinsBound(last.wins, last.clock - r[0].clock, c.window);
    assert last.stores > 0 ==> last.stores * c.limit == (last.stores - 1) * c.limit + c.limit;
    ScaleMonotone(last.stores, last.wins, c.limit);
    ScaleMonotone(last.wins, (last.clock - r[0].clock) / c.window + 1, c.limit);
  }

  // ---- how many callers it takes to overrun a window ----

  /** The threads inside the limiter. */
  function Busy(s: State): set<nat> {
    Those(s.threads, (pc: Pc) => !pc.Idle?)
  }

  predicate AtMost(r: seq<State>, n: nat) {
    forall i | 0 <= i < |r| :: |Busy(r[i])| <= n
  }

  /** The run admitted at most `limit` requests for each window elapsed and one more. */
  predicate WithinWindows(c: Config, r: seq<State>)
    requires c.Valid() && |r| > 0
  {
    r[|r| - 1].admitted <= c.limit * ((r[|r| - 1].clock - r[0].clock) / c.window + 1)
  }

  /** Every run in which at most `n` threads are inside at a time respects the limit of each window. */
  ghost predicate Respected(c: Config, n: nat)
    requires c.Valid()
  {
    forall r: seq<State> | IsRun(c, r) && Fresh(r[0]) && AtMost(r, n) :: WithinWindows(c, r)
  }

  /** One request at a time, nobody counts during a reset. */
  lemma SerialUndisturbed(c: Config, r: seq<State>)
    requires c.Valid() && IsRun(c, r) && Quiet(r[0]) && AtMost(r, 1)
    ensures Undisturbed(r)
  {
    forall i | 0 <= i < |r| - 1 && Resetting(r[i]) != {}
      ensures r[i + 1].count != r[i].count + 1
    {
      RunKeepsInvariant(c, r, i);
      assert Steps(c, r[i], r[i + 1]);
      var a :| Enabled(r[i], a) && r[i + 1] == Next(c, r[i], a);
      var t :| t in Resetting(r[i]);
      if a.Add? {
        assert {t, a.t} <= Busy(r[i]);
        SubsetSize({t, a.t}, Busy(r[i]));
      }
    }
  }

  lemma TwoAtMost(r: seq<State>, n: nat)
    requires OnlyTwo(r) && n >= 2
    ensures AtMost(r, n)
  {
    forall i | 0 <= i < |r|
      ensures |Busy(r[i])| <= n
    {
      SubsetSize(Busy(r[i]), {0, 1});
    }
  }

  /** The limit exactly: it holds for each window if and only if callers come one at a time, or it is zero. */
  lemma RespectedIff(c: Config, n: nat)
    requires c.Valid()
    ensures Respected(c, n) <==> n <= 1 || c.limit == 0
  {
    if n <= 1 || c.limit == 0 {
      forall r: seq<State> | IsRun(c, r) && Fresh(r[0]) && AtMost(r, n)
        ensures WithinWindows(c, r)
      {
        if c.limit == 0 {
          AdmissionBound(c, r);
        } else {
          SerialUndisturbed(c, r);
          WindowsRespected(c, r);
        }
      }
    } else {
      var r := BoundIsReached(c, 0);
      TwoAtMost(r, n);
      assert !WithinWindows(c, r);
    }
  }
}
