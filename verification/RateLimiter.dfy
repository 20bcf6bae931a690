/**
 * The two rate-limit backends used one request at a time: the in-memory Limiter, with its
 * background clean-up, and the Redis script.  Times are nanoseconds.
 */
module RateLimiter {
  import opened Prelude

  const SECOND := 1_000_000_000
  const MILLISECOND := 1_000_000
  const MINUTE := 60 * SECOND

  /** The fixed window of one key; a key never seen has the zero bucket. */
  datatype Window = Window(count: int, end: int)

  type Windows = map<string, Window>

  function Lookup(v: Windows, key: string): Window {
    if key in v then v[key] else Window(0, 0)
  }

  /** The window after one more request at time `now`. */
  function Touch(w: Window, window: int, now: int): Window {
    if now >= w.end then Window(1, now + window) else Window(w.count + 1, w.end)
  }

  /** What StartCleanup leaves: windows that ended more than a minute ago are dropped. */
  function Swept(v: Windows, now: int): Windows {
    map k | k in v && !(now > v[k].end + MINUTE) :: v[k]
  }

  class Bucket {
    var count: int
    var windowEnd: int

    constructor ()
      ensures count == 0 && windowEnd == 0
    {
      count, windowEnd := 0, 0;
    }

    /** Counts one more request, in a new window if the last one is over. */
    method Count(window: int, now: int) returns (n: int)
      modifies this
      ensures Window(count, windowEnd) == Touch(Window(old(count), old(windowEnd)), window, now) && n == count
    {
      var end := now + window;
      var currentEnd := windowEnd;
      if now >= currentEnd {
        if windowEnd == currentEnd {
          windowEnd := end;
          count := 0;
        }
      }
      count := count + 1;
      n := count;
    }
  }

  class Limiter {
    var buckets: map<string, Bucket>

    /** No two keys share a bucket. */
    ghost predicate Valid()
      reads this
    {
      forall j, k | j in buckets && k in buckets && j != k :: buckets[j] != buckets[k]
    }

    ghost function View(): Windows
      reads this, buckets.Values
    {
      map k | k in buckets :: Window(buckets[k].count, buckets[k].windowEnd)
    }

    constructor ()
      ensures Valid() && View() == map[]
    {
      buckets := map[];
    }

    /** LoadOrStore: the bucket of a key, created on first use. */
    method LoadOrStore(key: string) returns (b: Bucket)
      requires Valid()
      modifies this
      ensures Valid() && key in buckets && buckets[key] == b
      ensures fresh(buckets.Values - old(buckets.Values))
      ensures View() == old(View())[key := Lookup(old(View()), key)]
    {
      if key in buckets {
        b := buckets[key];
      } else {
        b := new Bucket();
        buckets := buckets[key := b];
      }
    }

    /**
     * One request.  It is admitted exactly when it is among the first `limit` of its window, and a
     * refused request is told the time left in that window, but never less than a millisecond.
     */
    method AllowRetryAfter(key: string, limit: int, window: int, now: int) returns (ok: bool, retry: int)
      requires Valid()
      modifies this, buckets.Values
      ensures Valid() && fresh(buckets.Values - old(buckets.Values))
      ensures View() == old(View())[key := Touch(Lookup(old(View()), key), window, now)]
      ensures key in old(View()) && now < old(View())[key].end ==>
                View()[key] == Window(old(View())[key].count + 1, old(View())[key].end)
      ensures (key in old(View()) && now >= old(View())[key].end) || (key !in old(View()) && now >= 0) ==>
                View()[key] == Window(1, now + window)
      ensures ok <==> View()[key].count <= limit
      ensures ok ==> retry == 0
      ensures !ok ==> retry == Max(View()[key].end - now, 1_000_000)
    {
      var b := LoadOrStore(key);
      ghost var before := View();
      var count := b.Count(window, now);
      assert View() == before[key := Touch(before[key], window, now)];
      if count <= limit {
        return true, 0;
      }
      retry := b.windowEnd - now;
      if retry < MILLISECOND {
        retry := MILLISECOND;
      }
      return false, retry;
    }

    /** One tick of the clean-up goroutine: Range over the keys, deleting long-expired buckets. */
    method CleanUp(now: int)
      requires Valid()
      modifies this
      ensures Valid() && buckets.Values <= old(buckets.Values)
      ensures View() == Swept(old(View()), now)
      ensures forall k :: k in View() <==> k in old(View()) && now <= old(View())[k].end + 60_000_000_000
      ensures forall k | k in View() :: View()[k] == old(View())[k]
    {
      var todo := buckets.Keys;
      while todo != {}
        invariant todo <= buckets.Keys <= old(buckets.Keys)
        invariant forall k | k in buckets :: buckets[k] == old(buckets[k])
        invariant forall k | k in old(buckets) ::
            k in buckets <==> k in todo || !(now > old(buckets[k].windowEnd) + MINUTE)
        decreases todo
      {
        var key :| key in todo;
        todo := todo - {key};
        if now > buckets[key].windowEnd + MINUTE {
          buckets := buckets - {key};
        }
      }
    }
  }

  // ---- the Redis script ----

  /** A counter key with the time its TTL runs out; it does not exist from that time on. */
  datatype Entry = Entry(count: int, expiresAt: int)

  type Database = map<string, Entry>

  predicate Live(db: Database, key: string, now: int) {
    key in db && now < db[key].expiresAt
  }

  /** The whole-second TTL RedisLimiter passes to EXPIRE: max(window / time.Second, 1). */
  function TtlSeconds(window: int): nat {
    Max(window / SECOND, 1)
  }

  /** fixedWindowScript: INCR, and EXPIRE when the count became 1.  Runs atomically. */
  function Script(db: Database, key: string, ttl: nat, now: int): Database {
    var count := if Live(db, key, now) then db[key].count + 1 else 1;
    var expiresAt := if count == 1 then now + ttl * SECOND else db[key].expiresAt;
    db[key := Entry(count, expiresAt)]
  }

  // ---- traces ----

  /** A timed event: a request, or a tick of the in-memory clean-up. */
  datatype Event =
    | Request(at: nat, key: string, limit: int, window: int)
    | Sweep(at: nat)

  type Trace = seq<Event>

  predicate InOrder(t: Trace) {
    forall i, j | 0 <= i < j < |t| :: t[i].at <= t[j].at
  }

  /** The decisions of the in-memory limiter; sweeps decide nothing. */
  function MemoryRun(v: Windows, t: Trace): seq<bool>
    decreases t
  {
    if t == [] then []
    else match t[0]
      case Request(at, key, limit, window) =>
        var w := Touch(Lookup(v, key), window, at);
        [w.count <= limit] + MemoryRun(v[key := w], t[1..])
      case Sweep(at) => MemoryRun(Swept(v, at), t[1..])
  }

  /** The decisions of the Redis-backed limiter; the clean-up does not concern it. */
  function RedisRun(db: Database, t: Trace): seq<bool>
    decreases t
  {
    if t == [] then []
    else match t[0]
      case Request(at, key, limit, window) =>
        var db' := Script(db, key, TtlSeconds(window), at);
        [db'[key].count <= limit] + RedisRun(db', t[1..])
      case Sweep(_) => RedisRun(db, t[1..])
  }

  /** The two stores agree, as far as requests from `now` on can tell. */
  ghost predicate Agree(v: Windows, db: Database, now: int) {
    forall k: string :: AgreeOn(v, db, now, k)
  }

  predicate AgreeOn(v: Windows, db: Database, now: int, k: string) {
    var w := Lookup(v, k);
    && (Live(db, k, now) <==> now < w.end)
    && (Live(db, k, now) ==> db[k] == Entry(w.count, w.end) && w.count >= 1)
  }

  /** Every window asked for is a positive whole number of seconds. */
  predicate WholeSeconds(t: Trace) {
    forall e | e in t && e.Request? :: WholeSecond(e.window)
  }

  predicate WholeSecond(window: int) {
    window >= SECOND && window % SECOND == 0
  }

  lemma AgreeLater(v: Windows, db: Database, now: int, later: int)
    requires Agree(v, db, now) && now <= later
    ensures Agree(v, db, later)
  {
    forall k: string
      ensures AgreeOn(v, db, later, k)
    {
      assert AgreeOn(v, db, now, k);
    }
  }

  lemma RequestKeepsAgree(v: Windows, db: Database, e: Event)
    requires e.Request? && WholeSecond(e.window) && Agree(v, db, e.at)
    ensures var w := Touch(Lookup(v, e.key), e.window, e.at);
            var db' := Script(db, e.key, TtlSeconds(e.window), e.at);
            db'[e.key].count == w.count && Agree(v[e.key := w], db', e.at)
  {
    var v' := v[e.key := Touch(Lookup(v, e.key), e.window, e.at)];
    var db' := Script(db, e.key, TtlSeconds(e.window), e.at);
    assert AgreeOn(v, db, e.at, e.key);
    forall k: string
      ensures AgreeOn(v', db', e.at, k)
    {
      assert AgreeOn(v, db, e.at, k);
    }
  }

  lemma SweepKeepsAgree(v: Windows, db: Database, now: nat)
    requires Agree(v, db, now)
    ensures Agree(Swept(v, now), db, now)
  {
    forall k: string
      ensures AgreeOn(Swept(v, now), db, now, k)
    {
      assert AgreeOn(v, db, now, k);
    }
  }

  /**
   * For whole-second windows the Redis script and the in-memory limiter, whatever sweeps run in
   * between, decide every trace alike.
   */
  lemma {:induction false} BackendsAgree(v: Windows, db: Database, now: nat, t: Trace)
    requires Agree(v, db, now) && InOrder(t) && (t != [] ==> now <= t[0].at)
    requires WholeSeconds(t)
    ensures MemoryRun(v, t) == RedisRun(db, t)
    decreases t
  {
    if t != [] {
      var e := t[0];
      AgreeLater(v, db, now, e.at);
      assert InOrder(t[1..]) && WholeSeconds(t[1..]);
      match e {
        case Request(at, key, limit, window) =>
          assert e in t;
          RequestKeepsAgree(v, db, e);
          BackendsAgree(v[key := Touch(Lookup(v, key), window, at)],
                        Script(db, key, TtlSeconds(window), at), at, t[1..]);
        case Sweep(at) =>
          SweepKeepsAgree(v, db, at);
          BackendsAgree(Swept(v, at), db, at, t[1..]);
      }
    }
  }

  /** A trace in which every request uses the same window. */
  predicate UsesWindow(t: Trace, window: int) {
    forall e | e in t && e.Request? :: e.window == window
  }

  /**
   * Exactly when a window can be served by either backend: the two decide every trace that uses it
   * alike if and only if it is a positive whole number of seconds.
   */
  lemma AgreeIffWholeSecond(window: int)
    ensures WholeSecond(window) <==>
            forall t: Trace | InOrder(t) && UsesWindow(t, window) :: MemoryRun(map[], t) == RedisRun(map[], t)
  {
    if WholeSecond(window) {
      forall t: Trace | InOrder(t) && UsesWindow(t, window)
        ensures MemoryRun(map[], t) == RedisRun(map[], t)
      {
        assert Agree(map[], map[], 0);
        BackendsAgree(map[], map[], 0, t);
      }
    } else {
      var t := Distinguish(window);
      assert InOrder(t) && UsesWindow(t, window) && MemoryRun(map[], t) != RedisRun(map[], t);
    }
  }

  /** The same trace with every window rounded down to whole seconds, but to no less than one. */
  predicate Rounded(t: Trace, u: Trace) {
    && |u| == |t|
    && forall i | 0 <= i < |t| ::
         if t[i].Sweep? then u[i] == t[i]
         else u[i].Request? && u[i] == t[i].(window := u[i].window)
              && u[i].window % SECOND == 0 && SECOND <= u[i].window
              && u[i].window <= Max(t[i].window, SECOND) < u[i].window + SECOND
  }

  lemma RoundsTo(window: int, rounded: int)
    requires rounded % SECOND == 0 && SECOND <= rounded <= Max(window, SECOND) < rounded + SECOND
    ensures TtlSeconds(window) == TtlSeconds(rounded)
  {
  }

  lemma {:induction false} RedisRounds(db: Database, t: Trace, u: Trace)
    requires Rounded(t, u)
    ensures RedisRun(db, t) == RedisRun(db, u)
    decreases t
  {
    if t != [] {
      assert Rounded(t[1..], u[1..]) && u[0] == if t[0].Sweep? then t[0] else t[0].(window := u[0].window);
      if t[0].Request? {
        RoundsTo(t[0].window, u[0].window);
        RedisRounds(Script(db, t[0].key, TtlSeconds(t[0].window), t[0].at), t[1..], u[1..]);
      } else {
        RedisRounds(db, t[1..], u[1..]);
      }
    }
  }

  /**
   * What the Redis script does with any window: it decides as the in-memory limiter does on the window
   * rounded down to whole seconds, and to one second if it is shorter.
   */
  lemma RedisIsRounded(t: Trace, u: Trace)
    requires InOrder(t) && Rounded(t, u)
    ensures RedisRun(map[], t) == MemoryRun(map[], u)
  {
    RedisRounds(map[], t, u);
    assert InOrder(u) && WholeSeconds(u);
    assert Agree(map[], map[], 0);
    BackendsAgree(map[], map[], 0, u);
  }

  /** Two requests, limit 1, the second when only one of the two windows has ended. */
  lemma Distinguish(window: int) returns (t: Trace)
    requires !WholeSecond(window)
    ensures InOrder(t) && UsesWindow(t, window)
    ensures MemoryRun(map[], t) != RedisRun(map[], t)
  {
    var ttl := TtlSeconds(window) * SECOND;
    var again := Max(0, Min(window, ttl));
    t := [Request(0, "k", 1, window), Request(again, "k", 1, window)];
    var v := map["k" := Window(1, window)];
    var db := map["k" := Entry(1, ttl)];
    assert t[1..] == [t[1]] && t[1..][1..] == [];
    assert MemoryRun(map[], t) == [true] + MemoryRun(v, t[1..]);
    assert RedisRun(map[], t) == [true] + RedisRun(db, t[1..]);
    assert MemoryRun(v, t[1..])[0] <==> again >= window;
    assert RedisRun(db, t[1..])[0] <==> again >= ttl;
    assert MemoryRun(map[], t)[1] != RedisRun(map[], t)[1];
  }

  /** The requests of a trace, without the sweeps. */
  function Requests(t: Trace): Trace {
    if t == [] then []
    else (if t[0].Request? then [t[0]] else []) + Requests(t[1..])
  }

  /** Two views that requests from `now` on cannot tell apart. */
  ghost predicate SameFrom(v: Windows, u: Windows, now: int) {
    forall k: string :: SameOn(v, u, now, k)
  }

  predicate SameOn(v: Windows, u: Windows, now: int, k: string) {
    Lookup(v, k) == Lookup(u, k) || (Lookup(v, k).end <= now && Lookup(u, k).end <= now)
  }

  /** Evicting buckets never changes a later decision, for windows of any length. */
  lemma {:induction false} SweepsChangeNothing(v: Windows, u: Windows, now: nat, t: Trace)
    requires SameFrom(v, u, now) && InOrder(t) && (t != [] ==> now <= t[0].at)
    ensures MemoryRun(v, t) == MemoryRun(u, Requests(t))
    decreases t
  {
    if t != [] {
      assert InOrder(t[1..]);
      match t[0] {
        case Request(at, key, limit, window) =>
          var w := Touch(Lookup(v, key), window, at);
          assert SameOn(v, u, now, key);
          var v', u' := v[key := w], u[key := w];
          forall k: string
            ensures SameOn(v', u', at, k)
          {
            assert SameOn(v, u, now, k);
          }
          SweepsChangeNothing(v', u', at, t[1..]);
          assert Requests(t) == [t[0]] + Requests(t[1..]);
          assert Requests(t)[1..] == Requests(t[1..]);
        case Sweep(at) =>
          var v' := Swept(v, at);
          forall k: string
            ensures SameOn(v', u, at, k)
          {
            assert SameOn(v, u, now, k);
          }
          SweepsChangeNothing(v', u, at, t[1..]);
          assert Requests(t) == Requests(t[1..]);
      }
    }
  }
}
