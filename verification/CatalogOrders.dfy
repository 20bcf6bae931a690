/**
 * What the order in which the queries list a version's rows can change about the content read back: the
 * order of metrics, plans, prices and entitlements, and nothing else.
 */
module CatalogOrders {
  import opened CatalogContent
  import opened CatalogStore
  import opened CatalogReading

  predicate SamePlan(p: PlanInput, q: PlanInput) {
    && p.code == q.code && p.name == q.name && p.interval == q.interval && p.currency == q.currency
    && multiset(p.prices) == multiset(q.prices)
    && multiset(p.entitlements) == multiset(q.entitlements)
  }

  /** The same metrics, and plan by plan, matched by code, the same prices and entitlements. */
  predicate SameUpToOrder(c: Content, d: Content) {
    && multiset(c.metrics) == multiset(d.metrics)
    && |c.plans| == |d.plans|
    && (forall p | p in c.plans :: exists q :: q in d.plans && q.code == p.code)
    && (forall p, q | p in c.plans && q in d.plans && p.code == q.code :: SamePlan(p, q))
  }

  predicate CodesDistinct(r: Rows) {
    forall i, j | i in r.plans && j in r.plans && i != j :: r.plans[i].code != r.plans[j].code
  }

  /** All rows of one version belong to it, so that the unique constraint on plan codes applies. */
  lemma VersionCodesDistinct(db: Tables, v: Id)
    requires KeysUnique(db)
    ensures CodesDistinct(RowsOf(db, v))
  {
  }

  // ---- how often an item is read back depends on the rows alone ----

  lemma WithoutLast<K>(ids: seq<K>, rows: set<K>)
    requires Enumerates(ids, rows) && ids != []
    ensures var last := ids[|ids| - 1]; Enumerates(ids[..|ids| - 1], rows - {last}) && last in rows
  {
    var init, last := ids[..|ids| - 1], ids[|ids| - 1];
    assert ids == init + [last];
    assert last in ids;
  }

  lemma {:induction false} EnumeratesAll<K>(ids: seq<K>, rows: set<K>)
    requires Enumerates(ids, rows)
    ensures |ids| == |rows|
  {
    if ids == [] {
      assert rows == {} by { assert forall x | x in rows :: x in ids; }
    } else {
      WithoutLast(ids, rows);
      EnumeratesAll(ids[..|ids| - 1], rows - {ids[|ids| - 1]});
    }
  }

  /** Reading one more row adds its item, if it is taken, to the items and its id to those that read as it. */
  lemma CountStep<T>(items: seq<T>, x: T, before: set<Id>, id: Id, item: T, taken: bool)
    requires multiset(items)[x] == |before| && id !in before
    ensures multiset(items + if taken then [item] else [])[x] == |if taken && item == x then before + {id} else before|
  {
  }

  function MetricsReading(r: Rows, rows: set<Id>, x: MetricInput): set<Id> {
    set id | id in rows && id in r.metrics && MetricIn(r.metrics[id]) == x
  }

  lemma {:induction false} MetricCount(r: Rows, ids: seq<Id>, rows: set<Id>, ms: seq<MetricInput>, x: MetricInput)
    requires Enumerates(ids, rows) && rows <= r.metrics.Keys
    requires |ms| == |ids| && forall i | 0 <= i < |ids| :: ids[i] in r.metrics && ms[i] == MetricIn(r.metrics[ids[i]])
    ensures multiset(ms)[x] == |MetricsReading(r, rows, x)|
  {
    if ids == [] {
      assert MetricsReading(r, rows, x) == {};
    } else {
      var n := |ids| - 1;
      WithoutLast(ids, rows);
      MetricCount(r, ids[..n], rows - {ids[n]}, ms[..n], x);
      assert ms == ms[..n] + [ms[n]];
      var before := MetricsReading(r, rows - {ids[n]}, x);
      assert MetricsReading(r, rows, x) == if ms[n] == x then before + {ids[n]} else before;
    }
  }

  function PricesReading(r: Rows, rows: set<Id>, p: Id, x: PriceInput): set<Id> {
    set id | id in rows && id in r.prices && r.prices[id].plan == p && PriceIn(r.metrics, r.prices[id]) == x
  }

  lemma PricesReadingNext(r: Rows, rows: set<Id>, p: Id, x: PriceInput, id: Id, item: PriceInput)
    requires id in rows && id in r.prices && item == PriceIn(r.metrics, r.prices[id])
    ensures var before := PricesReading(r, rows - {id}, p, x);
            PricesReading(r, rows, p, x) == if r.prices[id].plan == p && item == x then before + {id} else before
  {
  }

  lemma {:induction false} PriceCount(r: Rows, ids: seq<Id>, rows: set<Id>, p: Id, x: PriceInput)
    requires Enumerates(ids, rows) && rows <= r.prices.Keys
    ensures multiset(PricesFor(r, ids, p))[x] == |PricesReading(r, rows, p, x)|
  {
    if ids == [] {
      assert PricesReading(r, rows, p, x) == {};
    } else {
      var n := |ids| - 1;
      WithoutLast(ids, rows);
      PriceCount(r, ids[..n], rows - {ids[n]}, p, x);
      var taken, item := r.prices[ids[n]].plan == p, PriceIn(r.metrics, r.prices[ids[n]]);
      PricesReadingNext(r, rows, p, x, ids[n], item);
      CountStep(PricesFor(r, ids[..n], p), x, PricesReading(r, rows - {ids[n]}, p, x), ids[n], item, taken);
    }
  }

  function GrantsReading(r: Rows, rows: set<Id>, p: Id, x: EntitlementInput): set<Id> {
    set id | id in rows && id in r.grants && r.grants[id].plan == p && GrantIn(r.grants[id]) == x
  }

  lemma {:induction false} GrantCount(r: Rows, ids: seq<Id>, rows: set<Id>, p: Id, x: EntitlementInput)
    requires Enumerates(ids, rows) && rows <= r.grants.Keys
    ensures multiset(GrantsFor(r, ids, p))[x] == |GrantsReading(r, rows, p, x)|
  {
    if ids == [] {
      assert GrantsReading(r, rows, p, x) == {};
    } else {
      var n := |ids| - 1;
      WithoutLast(ids, rows);
      GrantCount(r, ids[..n], rows - {ids[n]}, p, x);
      var row := r.grants[ids[n]];
      var before := GrantsReading(r, rows - {ids[n]}, p, x);
      assert GrantsReading(r, rows, p, x) == if row.plan == p && GrantIn(row) == x then before + {ids[n]} else before;
    }
  }

  // ---- two readings of the same rows ----

  lemma SamePlanRead(r: Rows, l: Listing, k: Listing, p: Id)
    requires Lists(l, r) && Lists(k, r) && p in r.plans
    ensures SamePlan(PlanIn(r, l, p), PlanIn(r, k, p))
  {
    var a, b := PricesFor(r, l.prices, p), PricesFor(r, k.prices, p);
    forall x: PriceInput
      ensures multiset(a)[x] == multiset(b)[x]
    {
      PriceCount(r, l.prices, r.prices.Keys, p, x);
      PriceCount(r, k.prices, r.prices.Keys, p, x);
    }
    var g, h := GrantsFor(r, l.grants, p), GrantsFor(r, k.grants, p);
    forall x: EntitlementInput
      ensures multiset(g)[x] == multiset(h)[x]
    {
      GrantCount(r, l.grants, r.grants.Keys, p, x);
      GrantCount(r, k.grants, r.grants.Keys, p, x);
    }
  }

  lemma SameMetricsRead(r: Rows, l: Listing, k: Listing)
    requires Lists(l, r) && Lists(k, r)
    ensures multiset(ContentOf(r, l).metrics) == multiset(ContentOf(r, k).metrics)
  {
    var a, b := ContentOf(r, l).metrics, ContentOf(r, k).metrics;
    forall x: MetricInput
      ensures multiset(a)[x] == multiset(b)[x]
    {
      MetricCount(r, l.metrics, r.metrics.Keys, a, x);
      MetricCount(r, k.metrics, r.metrics.Keys, b, x);
    }
  }

  lemma CodesMatched(r: Rows, l: Listing, k: Listing, p: PlanInput)
    requires Lists(l, r) && Lists(k, r) && p in ContentOf(r, l).plans
    ensures exists q :: q in ContentOf(r, k).plans && q.code == p.code
  {
    var c, d := ContentOf(r, l), ContentOf(r, k);
    var i :| 0 <= i < |c.plans| && c.plans[i] == p;
    assert l.plans[i] in l.plans && l.plans[i] in k.plans;
    var j :| 0 <= j < |k.plans| && k.plans[j] == l.plans[i];
    assert d.plans[j] in d.plans;
  }

  lemma MatchedSame(r: Rows, l: Listing, k: Listing, p: PlanInput, q: PlanInput)
    requires Lists(l, r) && Lists(k, r) && CodesDistinct(r) && p.code == q.code
    requires p in ContentOf(r, l).plans && q in ContentOf(r, k).plans
    ensures SamePlan(p, q)
  {
    var i :| 0 <= i < |l.plans| && ContentOf(r, l).plans[i] == p;
    var j :| 0 <= j < |k.plans| && ContentOf(r, k).plans[j] == q;
    assert l.plans[i] in r.plans && k.plans[j] in r.plans;
    SamePlanRead(r, l, k, l.plans[i]);
  }

  /** Whatever order the queries choose, two readings of the same rows differ in order only. */
  lemma ReadingsAgree(r: Rows, c: Content, d: Content)
    requires ReadsAs(r, c) && ReadsAs(r, d) && CodesDistinct(r)
    ensures SameUpToOrder(c, d)
  {
    var l :| Lists(l, r) && ContentOf(r, l) == c;
    var k :| Lists(k, r) && ContentOf(r, k) == d;
    SameMetricsRead(r, l, k);
    EnumeratesAll(l.plans, r.plans.Keys);
    EnumeratesAll(k.plans, r.plans.Keys);
    forall p | p in c.plans
      ensures exists q :: q in d.plans && q.code == p.code
    {
      CodesMatched(r, l, k, p);
    }
    forall p, q | p in c.plans && q in d.plans && p.code == q.code
      ensures SamePlan(p, q)
    {
      MatchedSame(r, l, k, p, q);
    }
  }

  /** The rows read back as this content, and in any other order of listing as the same up to order. */
  ghost predicate ReadsOnlyAs(r: Rows, c: Content) {
    ReadsAs(r, c) && forall d | ReadsAs(r, d) :: SameUpToOrder(c, d)
  }

  lemma OnlyReading(db: Tables, v: Id, c: Content)
    requires KeysUnique(db) && ReadsAs(RowsOf(db, v), c)
    ensures ReadsOnlyAs(RowsOf(db, v), c)
  {
    VersionCodesDistinct(db, v);
    forall d | ReadsAs(RowsOf(db, v), d)
      ensures SameUpToOrder(c, d)
    {
      ReadingsAgree(RowsOf(db, v), c, d);
    }
  }
}
