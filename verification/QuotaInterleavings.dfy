/** Reservations of one quota key made at the same time. */
module QuotaInterleavings {
  import opened Prelude

  /**
   * The check and the insert of ReserveQuota are one statement, but under READ COMMITTED the statement
   * sums over the rows committed when it started, and its own row counts for others only once it has
   * committed.  `usage` is the sum over committed rows; `flights` holds the amounts checked and not yet
   * committed.
   */
  datatype State = State(usage: int, limit: Option<int>, highest: int, flights: map<nat, int>)

  datatype Action =
    | SetLimit(value: int)
    | DeleteLimit
    | Check(t: nat, amount: int)
    | CommitInsert(t: nat)
    | Abort(t: nat)
    | Free(amount: int)

  predicate Enabled(s: State, a: Action) {
    match a
    case SetLimit(v) => v >= 0
    case DeleteLimit => true
    case Check(t, amount) => t !in s.flights && amount > 0 && s.limit.Some? && s.usage + amount <= s.limit.value
    case CommitInsert(t) => t in s.flights
    case Abort(t) => t in s.flights
    case Free(amount) => 0 < amount <= s.usage
  }

  /** A check that fails inserts nothing and is no action; a release or an expiry frees an amount. */
  function Next(s: State, a: Action): State
    requires Enabled(s, a)
  {
    match a
    case SetLimit(v) => s.(limit := Some(v), highest := Max(s.highest, v))
    case DeleteLimit => s.(limit := None)
    case Check(t, amount) => s.(flights := s.flights[t := amount])
    case CommitInsert(t) => s.(usage := s.usage + s.flights[t], flights := s.flights - {t})
    case Abort(t) => s.(flights := s.flights - {t})
    case Free(amount) => s.(usage := s.usage - amount)
  }

  /** Without a limit nothing is reserved; with one, exactly what it covers on top of the committed usage. */
  lemma LimitDecides(s: State, t: nat, amount: int, value: int)
    requires t !in s.flights && amount > 0 && value >= 0
    ensures !Enabled(Next(s, DeleteLimit), Check(t, amount))
    ensures Enabled(Next(s, SetLimit(value)), Check(t, amount)) <==> s.usage + amount <= value
  {
  }

  /** A reservation counts once it is committed, and not at all if it is aborted. */
  lemma CountsOnceCommitted(s: State, t: nat, amount: int)
    requires Enabled(s, Check(t, amount))
    ensures var checked := Next(s, Check(t, amount));
            && checked.usage == s.usage
            && Next(checked, CommitInsert(t)).usage == s.usage + amount
            && Next(checked, Abort(t)) == s
  {
    assert s.flights[t := amount] - {t} == s.flights;
  }

  const START := State(0, None, 0, map[])

  ghost predicate Steps(s: State, s': State) {
    exists a :: Enabled(s, a) && s' == Next(s, a)
  }

  /** A run in which at most `n` reservations overlap and none exceeds `most`. */
  ghost predicate IsRun(run: seq<State>, n: nat, most: int) {
    && |run| > 0 && run[0] == START
    && (forall i | 0 <= i < |run| - 1 :: Steps(run[i], run[i + 1]))
    && (forall i | 0 <= i < |run| :: Fits(run[i], n, most))
  }

  predicate Fits(s: State, n: nat, most: int) {
    |s.flights| <= n && forall t | t in s.flights :: s.flights[t] <= most
  }

  // ---- the amounts in flight ----

  ghost function InFlight(f: map<nat, int>): int
    decreases f.Keys
  {
    if f == map[] then 0
    else
      var t :| t in f;
      f[t] + InFlight(f - {t})
  }

  /** The sum does not depend on the order it is taken in. */
  lemma {:induction false} TakeOut(f: map<nat, int>, t: nat)
    requires t in f
    ensures InFlight(f) == f[t] + InFlight(f - {t})
    decreases f.Keys
  {
    var u :| u in f && InFlight(f) == f[u] + InFlight(f - {u});
    if u != t {
      TakeOut(f - {u}, t);
      TakeOut(f - {t}, u);
      assert f - {u} - {t} == f - {t} - {u};
    }
  }

  /** What n overlapping reservations of at most `most` each can add to a limit. */
  function Excess(n: nat, most: int): (r: int)
    ensures most >= 0 ==> r >= 0
  {
    if n <= 1 then 0 else Excess(n - 1, most) + most
  }

  lemma {:induction false} ExcessIsProduct(n: nat, most: int)
    requires n > 0
    ensures Excess(n, most) == (n - 1) * most
  {
    if n > 1 {
      ExcessIsProduct(n - 1, most);
      assert (n - 1) * most == (n - 2) * most + most;
    }
  }

  lemma {:induction false} InFlightBounded(f: map<nat, int>, n: nat, most: int)
    requires |f| <= n && most >= 0
    requires forall t | t in f :: 0 < f[t] <= most
    ensures 0 <= InFlight(f) <= Excess(n + 1, most)
    decreases f.Keys
  {
    if f != map[] {
      var t :| t in f && InFlight(f) == f[t] + InFlight(f - {t});
      assert (f - {t}).Keys == f.Keys - {t};
      InFlightBounded(f - {t}, n - 1, most);
    }
  }

  // ---- the bound ----

  predicate Sound(s: State) {
    && 0 <= s.usage && 0 <= s.highest
    && (s.limit.Some? ==> s.limit.value <= s.highest)
    && forall t | t in s.flights :: 0 < s.flights[t]
  }

  ghost predicate Bounded(s: State, n: nat, most: int) {
    Sound(s) && s.usage + InFlight(s.flights) <= s.highest + Excess(n, most)
  }

  lemma CheckKeepsBound(s: State, t: nat, amount: int, n: nat, most: int)
    requires Bounded(s, n, most) && Enabled(s, Check(t, amount)) && most >= 0
    requires Fits(s, n, most) && Fits(Next(s, Check(t, amount)), n, most)
    ensures Bounded(Next(s, Check(t, amount)), n, most)
  {
    var f := s.flights[t := amount];
    assert f[t] <= most;
    TakeOut(f, t);
    assert f - {t} == s.flights && f.Keys == s.flights.Keys + {t};
    InFlightBounded(s.flights, n - 1, most);
  }

  lemma StepKeepsBound(s: State, a: Action, n: nat, most: int)
    requires Bounded(s, n, most) && Enabled(s, a) && most >= 0
    requires Fits(s, n, most) && Fits(Next(s, a), n, most)
    ensures Bounded(Next(s, a), n, most)
  {
    match a
    case Check(t, amount) => CheckKeepsBound(s, t, amount, n, most);
    case CommitInsert(t) => TakeOut(s.flights, t);
    case Abort(t) => TakeOut(s.flights, t);
    case _ =>
  }

  lemma StepsKeepBound(s: State, s': State, n: nat, most: int)
    requires Bounded(s, n, most) && Steps(s, s') && most >= 0 && Fits(s, n, most) && Fits(s', n, most)
    ensures Bounded(s', n, most)
  {
    var a :| Enabled(s, a) && s' == Next(s, a);
    StepKeepsBound(s, a, n, most);
  }

  lemma RunStep(run: seq<State>, n: nat, most: int, i: nat)
    requires IsRun(run, n, most) && i + 1 < |run|
    ensures Steps(run[i], run[i + 1]) && Fits(run[i], n, most) && Fits(run[i + 1], n, most)
  {
  }

  lemma {:induction false} RunIsBounded(run: seq<State>, n: nat, most: int, i: nat)
    requires IsRun(run, n, most) && most >= 0 && i < |run|
    ensures Bounded(run[i], n, most)
    decreases i
  {
    if i == 0 {
      assert run[0] == START && InFlight(START.flights) == 0;
    } else {
      RunIsBounded(run, n, most, i - 1);
      RunStep(run, n, most, i - 1);
      StepsKeepBound(run[i - 1], run[i], n, most);
    }
  }

  /**
   * In every run, usage exceeds the highest limit ever set by at most (n - 1) times the largest amount,
   * where n is how many reservations overlap; if none do, it never exceeds it.
   */
  lemma OverspendBound(run: seq<State>, n: nat, most: int, i: nat)
    requires IsRun(run, n, most) && most >= 0 && i < |run| && n > 0
    ensures run[i].usage <= run[i].highest + (n - 1) * most
    ensures n == 1 ==> run[i].usage <= run[i].highest
  {
    RunIsBounded(run, n, most, i);
    InFlightBounded(run[i].flights, n, most);
    ExcessIsProduct(n, most);
  }

  // ---- the bound is reached ----

  function Flights(k: nat, amount: int): (f: map<nat, int>)
    ensures |f| == k && forall t | t in f :: t < k && f[t] == amount
  {
    if k == 0 then map[]
    else
      var g := Flights(k - 1, amount);
      assert g[k - 1 := amount].Keys == g.Keys + {k - 1};
      g[k - 1 := amount]
  }

  lemma {:induction false} CheckThem(k: nat, n: nat, amount: int) returns (run: seq<State>)
    requires k <= n && n > 0 && amount > 0
    ensures IsRun(run, n, amount)
    ensures run[|run| - 1] == State(0, Some(amount), amount, Flights(k, amount))
  {
    if k == 0 {
      var s := State(0, Some(amount), amount, map[]);
      assert Enabled(START, SetLimit(amount)) && s == Next(START, SetLimit(amount));
      assert Steps(START, s);
      run := [START, s];
    } else {
      run := CheckThem(k - 1, n, amount);
      var s := run[|run| - 1];
      var a := Check(k - 1, amount);
      assert Flights(k, amount) == Flights(k - 1, amount)[k - 1 := amount];
      run := Append(run, a, n, amount);
    }
  }

  lemma Append(run: seq<State>, a: Action, n: nat, most: int) returns (longer: seq<State>)
    requires IsRun(run, n, most) && Enabled(run[|run| - 1], a) && Fits(Next(run[|run| - 1], a), n, most)
    ensures IsRun(longer, n, most) && longer[|longer| - 1] == Next(run[|run| - 1], a)
  {
    longer := run + [Next(run[|run| - 1], a)];
    forall i | 0 <= i < |longer| - 1
      ensures Steps(longer[i], longer[i + 1])
    {
      assert i < |run| - 1 ==> Steps(run[i], run[i + 1]);
    }
  }

  lemma LastFlight(k: nat, amount: int)
    ensures k in Flights(k + 1, amount) && Flights(k + 1, amount)[k] == amount
    ensures Flights(k + 1, amount) - {k} == Flights(k, amount)
  {
    assert Flights(k + 1, amount) == Flights(k, amount)[k := amount];
  }

  function Times(k: nat, amount: int): int { if k == 0 then 0 else Times(k - 1, amount) + amount }

  lemma {:induction false} CommitThem(k: nat, n: nat, amount: int) returns (run: seq<State>)
    requires k <= n && n > 0 && amount > 0
    ensures IsRun(run, n, amount)
    ensures run[|run| - 1] == State(Times(n - k, amount), Some(amount), amount, Flights(k, amount))
    decreases n - k
  {
    if k == n {
      run := CheckThem(n, n, amount);
    } else {
      run := CommitThem(k + 1, n, amount);
      LastFlight(k, amount);
      run := Append(run, CommitInsert(k), n, amount);
    }
  }

  lemma {:induction false} TimesExcess(n: nat, amount: int)
    requires n > 0
    ensures Times(n, amount) == amount + Excess(n, amount)
  {
    if n > 1 {
      TimesExcess(n - 1, amount);
    }
  }

  /**
   * The bound is tight, contrary to the migration's claim that the ledger prevents concurrent
   * overspend: n overlapping reservations of the whole limit all pass their check.
   */
  lemma OverspendReached(n: nat, amount: int) returns (run: seq<State>)
    requires n > 0 && amount > 0
    ensures IsRun(run, n, amount)
    ensures var s := run[|run| - 1]; s.usage == s.highest + (n - 1) * amount && s.highest == amount
  {
    run := CommitThem(0, n, amount);
    TimesExcess(n, amount);
    ExcessIsProduct(n, amount);
  }

  /** No run with at most `n` overlapping reservations of at most `most` each exceeds the highest limit. */
  ghost predicate NeverOverspends(n: nat, most: int) {
    forall run: seq<State>, i | IsRun(run, n, most) && 0 <= i < |run| :: run[i].usage <= run[i].highest
  }

  lemma FitsMore(run: seq<State>, n: nat, more: nat, most: int)
    requires IsRun(run, n, most) && n <= more
    ensures IsRun(run, more, most)
  {
  }

  /** Overspend exactly: whatever the amounts, it takes two reservations at a time, and two are enough. */
  lemma NeverOverspendsIff(n: nat, most: int)
    requires most > 0
    ensures NeverOverspends(n, most) <==> n <= 1
  {
    if n <= 1 {
      forall run: seq<State>, i | IsRun(run, n, most) && 0 <= i < |run|
        ensures run[i].usage <= run[i].highest
      {
        FitsMore(run, n, 1, most);
        OverspendBound(run, 1, most, i);
      }
    } else {
      var run := OverspendReached(2, most);
      FitsMore(run, 2, n, most);
    }
  }
}
