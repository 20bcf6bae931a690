/**
 * The quota ledger: limits, and reservations that are reserved, then committed, released or expired;
 * its operations one transaction at a time.
 */
module QuotaLedger {
  import opened Prelude

  type Id = nat

  datatype Status = Reserved | Committed | Released | Expired

  datatype Period = Daily | Monthly | Total | OtherPeriod(word: string)

  datatype QuotaKey = QuotaKey(subscription: Id, key: string)

  datatype Limit = Limit(value: int, period: Period)

  /** A row of quota_reservations; its id is its position. */
  datatype Reservation = Reservation(
    quota: QuotaKey, amount: int, reservationId: string, expiresAt: Option<int>, status: Status)

  datatype Error = Invalid | NotFound | Conflict | Exceeded

  // ---- sums over the ledger ----

  function SumIn(rows: seq<Reservation>, q: QuotaKey, s: Status): int {
    if rows == [] then 0
    else
      var r := rows[|rows| - 1];
      SumIn(rows[..|rows| - 1], q, s) + if r.quota == q && r.status == s then r.amount else 0
  }

  /** What counts against a limit: all that is reserved or committed, whenever it was. */
  function Usage(rows: seq<Reservation>, q: QuotaKey): int {
    SumIn(rows, q, Reserved) + SumIn(rows, q, Committed)
  }

  function Granted(rows: seq<Reservation>, q: QuotaKey): int {
    SumIn(rows, q, Reserved) + SumIn(rows, q, Committed) + SumIn(rows, q, Released) + SumIn(rows, q, Expired)
  }

  lemma {:induction false} SumAfterChange(rows: seq<Reservation>, i: nat, r: Reservation, q: QuotaKey, s: Status)
    requires i < |rows|
    ensures SumIn(rows[i := r], q, s)
            == SumIn(rows, q, s) - (if rows[i].quota == q && rows[i].status == s then rows[i].amount else 0)
               + (if r.quota == q && r.status == s then r.amount else 0)
  {
    var n := |rows| - 1;
    if i == n {
      assert rows[i := r][..n] == rows[..n];
    } else {
      assert rows[i := r][..n] == rows[..n][i := r];
      SumAfterChange(rows[..n], i, r, q, s);
    }
  }

  lemma SumAfterInsert(rows: seq<Reservation>, r: Reservation, q: QuotaKey, s: Status)
    ensures SumIn(rows + [r], q, s) == SumIn(rows, q, s) + if r.quota == q && r.status == s then r.amount else 0
  {
    assert (rows + [r])[..|rows|] == rows;
  }

  lemma {:induction false} SumOfNone(rows: seq<Reservation>, q: QuotaKey, s: Status)
    requires forall i | 0 <= i < |rows| && rows[i].quota == q :: rows[i].status != s
    ensures SumIn(rows, q, s) == 0
  {
    if rows != [] {
      SumOfNone(rows[..|rows| - 1], q, s);
    }
  }

  // ---- what each row may do ----

  /** Rows are only appended, and a row changes only its status, once, away from reserved. */
  predicate Advances(a: seq<Reservation>, b: seq<Reservation>) {
    && |a| <= |b|
    && forall i | 0 <= i < |a| ::
         b[i] == a[i].(status := b[i].status) && (a[i].status != Reserved ==> b[i] == a[i])
  }

  lemma AdvancesTransitive(a: seq<Reservation>, b: seq<Reservation>, c: seq<Reservation>)
    requires Advances(a, b) && Advances(b, c)
    ensures Advances(a, c)
  {
    forall i | 0 <= i < |a|
      ensures c[i] == a[i].(status := c[i].status) && (a[i].status != Reserved ==> c[i] == a[i])
    {
      assert b[i] == a[i].(status := b[i].status) && c[i] == b[i].(status := c[i].status);
    }
  }

  /** Over any run of the ledger, a reservation leaves reserved at most once, and for good. */
  lemma {:induction false} SettledForGood(run: seq<seq<Reservation>>, j: nat, k: nat, i: nat)
    requires forall s | 0 <= s < |run| - 1 :: Advances(run[s], run[s + 1])
    requires j <= k < |run| && i < |run[j]|
    ensures Advances(run[j], run[k])
    ensures run[j][i].status != Reserved ==> run[k][i] == run[j][i]
  {
    if j < k {
      SettledForGood(run, j, k - 1, i);
      assert Advances(run[k - 1], run[k - 1 + 1]);
      AdvancesTransitive(run[j], run[k - 1], run[k]);
    }
  }

  /** Settling moves an amount between statuses: what was granted stays granted, and usage never grows. */
  lemma {:induction false} AmountsConserved(a: seq<Reservation>, b: seq<Reservation>, q: QuotaKey)
    requires Advances(a, b) && |a| == |b|
    requires forall i | 0 <= i < |a| :: a[i].amount > 0
    ensures Granted(b, q) == Granted(a, q) && Usage(b, q) <= Usage(a, q)
    ensures SumIn(b, q, Committed) >= SumIn(a, q, Committed)
  {
    if a != [] {
      var n := |a| - 1;
      AmountsConserved(a[..n], b[..n], q);
      assert b[n] == a[n].(status := b[n].status);
    }
  }

  // ---- the ledger ----

  predicate ValidPeriod(p: Period) { !p.OtherPeriod? }

  function HighestOf(highest: map<QuotaKey, int>, q: QuotaKey): int {
    if q in highest then highest[q] else 0
  }

  ghost predicate WithinLimits(rows: seq<Reservation>, highest: map<QuotaKey, int>) {
    forall q :: 0 <= Usage(rows, q) <= HighestOf(highest, q)
  }

  lemma InsertKeepsUsage(rows: seq<Reservation>, highest: map<QuotaKey, int>, row: Reservation)
    requires WithinLimits(rows, highest) && row.status == Reserved && row.amount > 0
    requires Usage(rows, row.quota) + row.amount <= HighestOf(highest, row.quota)
    ensures WithinLimits(rows + [row], highest)
  {
    forall k
      ensures 0 <= Usage(rows + [row], k) <= HighestOf(highest, k)
    {
      assert 0 <= Usage(rows, k) <= HighestOf(highest, k);
      SumAfterInsert(rows, row, k, Reserved);
      SumAfterInsert(rows, row, k, Committed);
      assert Usage(rows + [row], k) == Usage(rows, k) + if row.quota == k then row.amount else 0;
    }
  }

  lemma SettlingKeepsUsage(rows: seq<Reservation>, after: seq<Reservation>, highest: map<QuotaKey, int>)
    requires WithinLimits(rows, highest) && Advances(rows, after) && |after| == |rows|
    requires forall i | 0 <= i < |rows| :: rows[i].amount > 0
    ensures WithinLimits(after, highest)
  {
    forall k
      ensures 0 <= Usage(after, k) <= HighestOf(highest, k)
    {
      AmountsConserved(rows, after, k);
      SumsNonNegative(after, k, Reserved);
      SumsNonNegative(after, k, Committed);
    }
  }

  lemma {:induction false} SumsNonNegative(rows: seq<Reservation>, q: QuotaKey, s: Status)
    requires forall i | 0 <= i < |rows| :: rows[i].amount > 0
    ensures SumIn(rows, q, s) >= 0
  {
    if rows != [] {
      SumsNonNegative(rows[..|rows| - 1], q, s);
    }
  }

  class Ledger {
    var limits: map<QuotaKey, Limit>
    var rows: seq<Reservation>
    /** The highest limit ever set for a key; 0 where none was. */
    ghost var highest: map<QuotaKey, int>

    ghost predicate Valid()
      reads this
    {
      && (forall q | q in limits :: 0 <= limits[q].value <= HighestOf(highest, q))
      && (forall i | 0 <= i < |rows| :: rows[i].amount > 0)
      && (forall i, j | 0 <= i < j < |rows| :: rows[i].reservationId != rows[j].reservationId)
      && WithinLimits(rows, highest)
    }

    constructor ()
      ensures Valid() && limits == map[] && rows == []
    {
      limits, rows, highest := map[], [], map[];
    }

    method SetQuotaLimit(subscriptions: set<Id>, q: QuotaKey, value: int, period: Period)
      returns (r: Result<Limit, Error>)
      requires Valid()
      modifies this`limits, this`highest
      ensures Valid()
      ensures r.Ok? <==> q.key != "" && value >= 0 && ValidPeriod(period) && q.subscription in subscriptions
      ensures r.Ok? ==> r.value == Limit(value, period) && limits == old(limits)[q := r.value]
      ensures r.Ok? ==> highest == old(highest)[q := Max(HighestOf(old(highest), q), value)]
      ensures r.Err? ==> limits == old(limits) && highest == old(highest)
      ensures r.Err? ==> r.error == if q.key == "" || value < 0 || !ValidPeriod(period) then Invalid else NotFound
    {
      if q.key == "" || value < 0 || !ValidPeriod(period) {
        return Err(Invalid);
      }
      if q.subscription !in subscriptions {
        return Err(NotFound);
      }
      limits := limits[q := Limit(value, period)];
      highest := highest[q := Max(HighestOf(highest, q), value)];
      r := Ok(Limit(value, period));
    }

    method DeleteQuotaLimit(q: QuotaKey) returns (r: Result<Limit, Error>)
      requires Valid()
      modifies this`limits
      ensures Valid()
      ensures r.Ok? <==> q in old(limits)
      ensures r.Ok? ==> r.value == old(limits)[q] && limits == old(limits) - {q}
      ensures r.Err? ==> r.error == NotFound && limits == old(limits)
    {
      if q !in limits {
        return Err(NotFound);
      }
      r := Ok(limits[q]);
      limits := limits - {q};
    }

    /** The row with a caller-supplied reservation id. */
    method FindReservation(reservationId: string) returns (i: Option<Id>)
      ensures i.Some? ==> i.value < |rows| && rows[i.value].reservationId == reservationId
      ensures i.None? ==> forall j | 0 <= j < |rows| :: rows[j].reservationId != reservationId
    {
      for j := 0 to |rows|
        invariant forall k | 0 <= k < j :: rows[k].reservationId != reservationId
      {
        if rows[j].reservationId == reservationId {
          return Some(j);
        }
      }
      i := None;
    }

    /** The sum in the check of the insert statement. */
    method CurrentUsage(q: QuotaKey) returns (total: int)
      ensures total == Usage(rows, q)
    {
      total := 0;
      for i := 0 to |rows|
        invariant total == Usage(rows[..i], q)
      {
        assert rows[..i + 1][..i] == rows[..i];
        if rows[i].quota == q && (rows[i].status == Reserved || rows[i].status == Committed) {
          total := total + rows[i].amount;
        }
      }
      assert rows[..|rows|] == rows;
    }

    /**
     * A known reservation id returns its row as it is, whatever the other arguments; otherwise the
     * amount is reserved exactly if a limit exists and covers it on top of what is reserved or committed.
     * So a key whose reservations were all released or have expired is good for its full limit again.
     */
    method ReserveQuota(subscriptions: set<Id>, q: QuotaKey, amount: int, reservationId: string, expiresAt: Option<int>)
      returns (r: Result<Id, Error>)
      requires Valid()
      modifies this`rows
      ensures Valid() && Advances(old(rows), rows)
      ensures r.Ok? <==> q.key != "" && amount > 0 && reservationId != "" && q.subscription in subscriptions
                         && ((exists i :: 0 <= i < |old(rows)| && old(rows)[i].reservationId == reservationId)
                             || (q in limits && SumIn(old(rows), q, Reserved) + SumIn(old(rows), q, Committed) + amount
                                                <= limits[q].value))
      ensures q.key != "" && amount > 0 && reservationId != "" && q.subscription in subscriptions
              && (forall i | 0 <= i < |old(rows)| :: old(rows)[i].reservationId != reservationId)
              && (forall i | 0 <= i < |old(rows)| && old(rows)[i].quota == q ::
                    old(rows)[i].status == Released || old(rows)[i].status == Expired) ==>
                (r.Ok? <==> q in limits && amount <= limits[q].value)
      ensures r.Ok? ==> r.value < |rows| && rows[r.value].reservationId == reservationId
      ensures r.Ok? && r.value < |old(rows)| ==> rows == old(rows)
      ensures r.Ok? && r.value >= |old(rows)| ==>
                rows == old(rows) + [Reservation(q, amount, reservationId, expiresAt, Reserved)]
      ensures r.Err? ==> rows == old(rows)
      ensures r.Err? ==> r.error == if q.key == "" || amount <= 0 || reservationId == "" then Invalid
                                    else if q.subscription !in subscriptions then NotFound
                                    else Exceeded
    {
      FullLimit(rows, q);
      if q.key == "" || amount <= 0 || reservationId == "" {
        return Err(Invalid);
      }
      if q.subscription !in subscriptions {
        return Err(NotFound);
      }
      var existing := FindReservation(reservationId);
      if existing.Some? {
        return Ok(existing.value);
      }
      var total := CurrentUsage(q);
      if q !in limits || total + amount > limits[q].value {
        return Err(Exceeded);
      }
      var row := Reservation(q, amount, reservationId, expiresAt, Reserved);
      InsertKeepsUsage(rows, highest, row);
      r := Ok(|rows|);
      rows := rows + [row];
    }

    /** CommitQuota and ReleaseQuota: only a reserved row moves. */
    method Settle(id: Id, to: Status) returns (r: Result<Id, Error>)
      requires Valid() && (to == Committed || to == Released)
      modifies this`rows
      ensures Valid() && Advances(old(rows), rows)
      ensures r.Ok? <==> id < |old(rows)| && old(rows)[id].status == Reserved
      ensures r.Ok? ==> r.value == id && rows == old(rows)[id := old(rows)[id].(status := to)]
      ensures r.Err? ==> rows == old(rows)
      ensures r.Err? ==> r.error == if id >= |old(rows)| then NotFound else Conflict
    {
      if id >= |rows| {
        return Err(NotFound);
      }
      if rows[id].status != Reserved {
        return Err(Conflict);
      }
      SettlingKeepsUsage(rows, rows[id := rows[id].(status := to)], highest);
      rows := rows[id := rows[id].(status := to)];
      r := Ok(id);
    }

    method CommitQuota(id: Id) returns (r: Result<Id, Error>)
      requires Valid()
      modifies this`rows
      ensures Valid() && Advances(old(rows), rows)
      ensures r.Ok? <==> id < |old(rows)| && old(rows)[id].status == Reserved
      ensures r.Ok? ==> rows == old(rows)[id := old(rows)[id].(status := Committed)]
      ensures r.Ok? ==> forall q :: Usage(rows, q) == Usage(old(rows), q)
      ensures r.Err? ==> rows == old(rows)
    {
      ghost var before := rows;
      r := Settle(id, Committed);
      if r.Ok? {
        forall q
          ensures Usage(rows, q) == Usage(before, q)
        {
          SumAfterChange(before, id, rows[id], q, Reserved);
          SumAfterChange(before, id, rows[id], q, Committed);
        }
      }
    }

    method ReleaseQuota(id: Id) returns (r: Result<Id, Error>)
      requires Valid()
      modifies this`rows
      ensures Valid() && Advances(old(rows), rows)
      ensures r.Ok? <==> id < |old(rows)| && old(rows)[id].status == Reserved
      ensures r.Ok? ==> rows == old(rows)[id := old(rows)[id].(status := Released)]
      ensures r.Ok? ==> forall q :: Usage(rows, q)
                          == Usage(old(rows), q) - if q == old(rows)[id].quota then old(rows)[id].amount else 0
      ensures r.Err? ==> rows == old(rows)
    {
      ghost var before := rows;
      r := Settle(id, Released);
      if r.Ok? {
        forall q
          ensures Usage(rows, q) == Usage(before, q) - if q == before[id].quota then before[id].amount else 0
        {
          SumAfterChange(before, id, rows[id], q, Reserved);
          SumAfterChange(before, id, rows[id], q, Committed);
        }
      }
    }

    /**
     * Expires exactly the reserved rows whose time has come, and counts them.  Under each key it frees what it
     * expires: the amounts reserved or committed fall by as much as those expired rise.
     */
    method RecoverExpiredReservations(now: int) returns (n: nat)
      requires Valid()
      modifies this`rows
      ensures Valid() && Advances(old(rows), rows) && |rows| == |old(rows)|
      ensures forall i | 0 <= i < |rows| ::
                rows[i].status ==
                  var was := old(rows)[i];
                  if was.status == Reserved && was.expiresAt.Some? && was.expiresAt.value <= now then Expired
                  else was.status
      ensures n == |set i | 0 <= i < |rows| && rows[i].status != old(rows)[i].status|
      ensures forall q :: SumIn(rows, q, Reserved) + SumIn(rows, q, Committed) ==
                          SumIn(old(rows), q, Reserved) + SumIn(old(rows), q, Committed)
                          - (SumIn(rows, q, Expired) - SumIn(old(rows), q, Expired))
    {
      ghost var before := rows;
      var after := rows;
      n := 0;
      for i := 0 to |rows|
        invariant |after| == |rows| && n == DueCount(rows[..i], now)
        invariant forall j | 0 <= j < i :: after[j] == AfterExpiry(rows[j], now)
        invariant forall j | i <= j < |rows| :: after[j] == rows[j]
      {
        assert rows[..i + 1][..i] == rows[..i];
        if PastDue(rows[i], now) {
          after := after[i := rows[i].(status := Expired)];
          n := n + 1;
        }
      }
      assert rows[..|rows|] == rows;
      SettlingKeepsUsage(rows, after, highest);
      rows := after;
      ExpiredCounted(before, after, now);
      assert Changed(before, after) == set i | 0 <= i < |after| && after[i].status != before[i].status;
      forall q
        ensures SumIn(after, q, Reserved) + SumIn(after, q, Committed) ==
                SumIn(before, q, Reserved) + SumIn(before, q, Committed)
                - (SumIn(after, q, Expired) - SumIn(before, q, Expired))
      {
        ExpiryFrees(before, after, now, q);
      }
    }
  }

  lemma FullLimit(rows: seq<Reservation>, q: QuotaKey)
    ensures (forall i | 0 <= i < |rows| && rows[i].quota == q ::
               rows[i].status == Released || rows[i].status == Expired) ==>
              SumIn(rows, q, Reserved) == 0 && SumIn(rows, q, Committed) == 0
  {
    if forall i | 0 <= i < |rows| && rows[i].quota == q ::
         rows[i].status == Released || rows[i].status == Expired
    {
      SumOfNone(rows, q, Reserved);
      SumOfNone(rows, q, Committed);
    }
  }

  lemma {:induction false} ExpiryFrees(a: seq<Reservation>, b: seq<Reservation>, now: int, q: QuotaKey)
    requires ExpiredFrom(a, b, now)
    ensures SumIn(b, q, Reserved) + SumIn(b, q, Committed) ==
            SumIn(a, q, Reserved) + SumIn(a, q, Committed) - (SumIn(b, q, Expired) - SumIn(a, q, Expired))
  {
    if a != [] {
      var n := |a| - 1;
      ExpiryFrees(a[..n], b[..n], now, q);
      assert b[n] == AfterExpiry(a[n], now);
    }
  }

  function Changed(a: seq<Reservation>, b: seq<Reservation>): set<nat>
    requires |a| == |b|
  {
    set i: nat | i < |b| && b[i].status != a[i].status
  }

  lemma ChangedNext(a: seq<Reservation>, b: seq<Reservation>, n: nat)
    requires |a| == |b| == n + 1
    ensures Changed(a, b) == Changed(a[..n], b[..n]) + if b[n].status != a[n].status then {n} else {}
    ensures n !in Changed(a[..n], b[..n])
  {
  }

  lemma {:induction false} ExpiredCounted(a: seq<Reservation>, b: seq<Reservation>, now: int)
    requires ExpiredFrom(a, b, now)
    ensures DueCount(a, now) == |Changed(a, b)|
  {
    if a == [] {
      assert Changed(a, b) == {};
    } else {
      var n := |a| - 1;
      ExpiredCounted(a[..n], b[..n], now);
      ChangedNext(a, b, n);
    }
  }

  predicate PastDue(r: Reservation, now: int) {
    r.status == Reserved && r.expiresAt.Some? && r.expiresAt.value <= now
  }

  function AfterExpiry(r: Reservation, now: int): Reservation {
    if PastDue(r, now) then r.(status := Expired) else r
  }

  predicate ExpiredFrom(a: seq<Reservation>, b: seq<Reservation>, now: int) {
    |b| == |a| && forall i | 0 <= i < |a| :: b[i] == AfterExpiry(a[i], now)
  }

  function DueCount(rows: seq<Reservation>, now: int): nat {
    if rows == [] then 0
    else DueCount(rows[..|rows| - 1], now) + if PastDue(rows[|rows| - 1], now) then 1 else 0
  }
}
