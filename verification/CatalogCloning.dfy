/**
 * Deep clone of a catalogue version: its metrics, plans, prices and grants are inserted again under
 * another version, and every reference among them is redirected to the new rows.  Each of the four
 * loops fills a map from the ids it has copied to the ids of the copies; the maps together make the
 * result a copy of the original, in rows that did not exist before.
 */
module CatalogCloning {
  import opened Prelude
  import opened CatalogContent
  import opened CatalogStore
  import opened CatalogReading

  /** Nothing but rows of version `v` changed. */
  ghost predicate SameBut(a: Tables, b: Tables, v: Id) {
    && a.versions == b.versions && a.subscriptions == b.subscriptions
    && forall w: Id | w != v :: RowsOf(b, w) == RowsOf(a, w)
  }

  /** Rows were only added, under ids not used before. */
  predicate Grows<R(==)>(a: map<Id, R>, b: map<Id, R>, next: Id) {
    && (forall id | id in a :: id in b && b[id] == a[id])
    && (forall id | id in b && id !in a :: id >= next)
  }

  function Members(ids: seq<Id>): set<Id> { set id | id in ids }

  lemma NextMember(ids: seq<Id>, i: nat)
    requires i < |ids| && forall j, k | 0 <= j < k < |ids| :: ids[j] != ids[k]
    ensures ids[i] !in Members(ids[..i]) && Members(ids[..i]) <= Members(ids) && ids[i] in ids
            && Members(ids[..i + 1]) == Members(ids[..i]) + {ids[i]}
  {
    assert ids[..i + 1] == ids[..i] + [ids[i]];
  }

  // ---- cloneCatalogContentTx ----

  /** `ids` maps each row copied so far to its copy, and the copies are all that was added. */
  predicate Copied<R(==)>(a: map<Id, R>, b: map<Id, R>, next: Id, ids: map<Id, Id>) {
    && Grows(a, b, next)
    && (forall m | m in ids :: m in a && ids[m] in b && ids[m] !in a)
    && (forall m, n | m in ids && n in ids && m != n :: ids[m] != ids[n])
    && (forall id | id in b && id !in a :: id in ids.Values)
  }

  lemma CopyOneMore<R>(a: map<Id, R>, b: map<Id, R>, next: Id, ids: map<Id, Id>, m: Id, k: Id, row: R)
    requires Copied(a, b, next, ids) && m in a && m !in ids && k !in b && k >= next
    ensures Copied(a, b[k := row], next, ids[m := k])
  {
    var more := ids[m := k];
    forall id | id in b[k := row] && id !in a
      ensures id in more.Values
    {
      if id != k {
        var x :| x in ids && ids[x] == id;
        assert more[x] == id;
      } else {
        assert more[m] == k;
      }
    }
    forall x, y | x in more && y in more && x != y
      ensures more[x] != more[y]
    {
      assert x != m ==> ids[x] in b;
      assert y != m ==> ids[y] in b;
    }
  }

  /** The metrics of `from` listed so far have copies under `to`. */
  predicate MetricsCopied(a: Tables, b: Tables, to: Id, ids: map<Id, Id>) {
    && b == a.(metrics := b.metrics, nextId := b.nextId)
    && Copied(a.metrics, b.metrics, a.nextId, ids)
    && forall m | m in ids :: m in a.metrics && ids[m] in b.metrics && b.metrics[ids[m]] == a.metrics[m].(version := to)
  }

  /** Copies of the metrics in `ms` would pass the constraints, and `to` has no metrics yet. */
  predicate MetricsCopyable(tx: Tables, to: Id, ms: seq<Id>) {
    && IsDraft(tx, to) && MetricsAt(tx.metrics, to) == map[]
    && (forall id | id in tx.metrics :: id < tx.nextId)
    && (forall i, j | 0 <= i < j < |ms| :: ms[i] != ms[j])
    && (forall m | m in ms :: m in tx.metrics && MetricFits(tx, tx.metrics[m]))
    && (forall m, n | m in ms && n in ms && m != n :: tx.metrics[m].code != tx.metrics[n].code)
  }

  lemma MetricStillAccepted(tx0: Tables, tx: Tables, to: Id, ms: seq<Id>, ids: map<Id, Id>, m: Id)
    requires MetricsCopyable(tx0, to, ms) && MetricsCopied(tx0, tx, to, ids)
    requires ids.Keys <= Members(ms) && m in ms && m !in ids
    ensures AcceptsMetric(tx, tx0.metrics[m].(version := to))
  {
    assert MetricFits(tx0, tx0.metrics[m]);
    forall k | k in tx.metrics && tx.metrics[k].version == to
      ensures tx.metrics[k].code != tx0.metrics[m].code
    {
      assert k in tx0.metrics ==> k in MetricsAt(tx0.metrics, to);
      var x :| x in ids && ids[x] == k;
      assert x in Members(ms);
    }
  }

  lemma NextMetricCopy(tx0: Tables, tx: Tables, to: Id, ms: seq<Id>, ids: map<Id, Id>, m: Id, row: MetricRow)
    requires MetricsCopyable(tx0, to, ms) && MetricsCopied(tx0, tx, to, ids) && tx0.nextId <= tx.nextId
    requires ids.Keys <= Members(ms) && m in ms && m !in ids && tx.nextId !in tx.metrics
    requires row == tx0.metrics[m].(version := to)
    ensures AcceptsMetric(tx, row) && MetricsCopied(tx0, InsertMetric(tx, row), to, ids[m := tx.nextId])
  {
    MetricStillAccepted(tx0, tx, to, ms, ids, m);
    CopyOneMore(tx0.metrics, tx.metrics, tx0.nextId, ids, m, tx.nextId, row);
  }

  method CloneMetrics(tx0: Tables, ms: seq<Id>, to: Id) returns (tx: Tables, ids: map<Id, Id>)
    requires MetricsCopyable(tx0, to, ms)
    ensures MetricsCopied(tx0, tx, to, ids) && tx0.nextId <= tx.nextId
    ensures ids.Keys == Members(ms)
    ensures forall id | id in tx.metrics :: id < tx.nextId
  {
    tx, ids := tx0, map[];
    for i := 0 to |ms|
      invariant MetricsCopied(tx0, tx, to, ids) && tx0.nextId <= tx.nextId
      invariant ids.Keys == Members(ms[..i])
      invariant forall id | id in tx.metrics :: id < tx.nextId
    {
      var m := ms[i];
      NextMember(ms, i);
      var row := tx0.metrics[m].(version := to);
      NextMetricCopy(tx0, tx, to, ms, ids, m, row);
      ids := ids[m := tx.nextId];
      tx := InsertMetric(tx, row);
    }
    assert ms[..|ms|] == ms;
  }

  lemma MetricsCopyFits(tx0: Tables, tx: Tables, from: Id, to: Id, ids: map<Id, Id>)
    requires RowsOk(tx0) && IsDraft(tx0, to) && tx0.nextId <= tx.nextId
    requires MetricsCopied(tx0, tx, to, ids) && ids.Keys == MetricsAt(tx0.metrics, from).Keys
    requires forall id | id in tx.metrics :: id < tx.nextId
    ensures RowsOk(tx)
  {
    RowsStayOk(tx0, tx);
    forall id | id in tx.metrics && id !in tx0.metrics
      ensures MetricFits(tx, tx.metrics[id])
    {
      var m :| m in ids && ids[m] == id;
      assert MetricFits(tx0, tx0.metrics[m]);
    }
  }

  lemma MetricsCopyUnique(tx0: Tables, tx: Tables, from: Id, to: Id, ids: map<Id, Id>)
    requires MetricCodesUnique(tx0.metrics) && MetricsAt(tx0.metrics, to) == map[]
    requires MetricsCopied(tx0, tx, to, ids) && ids.Keys == MetricsAt(tx0.metrics, from).Keys
    ensures MetricCodesUnique(tx.metrics)
  {
    forall i, j | i in tx.metrics && j in tx.metrics && i != j && tx.metrics[i].version == tx.metrics[j].version
      ensures tx.metrics[i].code != tx.metrics[j].code
    {
      if tx.metrics[i].version == to {
        assert i in tx0.metrics ==> i in MetricsAt(tx0.metrics, to);
        assert j in tx0.metrics ==> j in MetricsAt(tx0.metrics, to);
        var x :| x in ids && ids[x] == i;
        var y :| y in ids && ids[y] == j;
        assert x in MetricsAt(tx0.metrics, from) && y in MetricsAt(tx0.metrics, from);
      }
    }
  }

  lemma MetricsCopyKeeps(tx0: Tables, tx: Tables, from: Id, to: Id, ids: map<Id, Id>)
    requires Invariant(tx0) && IsDraft(tx0, to) && MetricsAt(tx0.metrics, to) == map[] && tx0.nextId <= tx.nextId
    requires MetricsCopied(tx0, tx, to, ids) && ids.Keys == MetricsAt(tx0.metrics, from).Keys
    requires forall id | id in tx.metrics :: id < tx.nextId
    ensures Invariant(tx) && Evolves(tx0, tx)
  {
    MetricsCopyFits(tx0, tx, from, to, ids);
    MetricsCopyUnique(tx0, tx, from, to, ids);
    MetricsCopyDone(tx0, tx, from, to, ids);
    DraftChangeKeeps(tx0, tx);
  }

  lemma MetricsCopyDone(a: Tables, b: Tables, from: Id, to: Id, ids: map<Id, Id>)
    requires MetricsCopied(a, b, to, ids) && MetricsAt(a.metrics, to) == map[]
    requires ids.Keys == MetricsAt(a.metrics, from).Keys
    ensures Bijection(ids, MetricsAt(a.metrics, from).Keys, MetricsAt(b.metrics, to).Keys)
    ensures forall w | w != to :: MetricsAt(b.metrics, w) == MetricsAt(a.metrics, w)
  {
    forall k | k in b.metrics && k !in a.metrics
      ensures b.metrics[k].version == to
    {
      var x :| x in ids && ids[x] == k;
    }
    forall k | k in MetricsAt(b.metrics, to)
      ensures k in ids.Values
    {
      assert k in a.metrics ==> k in MetricsAt(a.metrics, to);
    }
    assert ids.Values == MetricsAt(b.metrics, to).Keys;
    forall w | w != to
      ensures MetricsAt(b.metrics, w) == MetricsAt(a.metrics, w)
    {
    }
  }

  /** The plans of `from` listed so far have copies under `to`. */
  predicate PlansCopied(a: Tables, b: Tables, to: Id, ids: map<Id, Id>) {
    && b == a.(plans := b.plans, nextId := b.nextId)
    && Copied(a.plans, b.plans, a.nextId, ids)
    && forall p | p in ids :: p in a.plans && ids[p] in b.plans && b.plans[ids[p]] == a.plans[p].(version := to)
  }

  /** Copies of the plans in `ps` would pass the constraints, and `to` has no plans yet. */
  predicate PlansCopyable(tx: Tables, to: Id, ps: seq<Id>) {
    && IsDraft(tx, to) && PlansAt(tx.plans, to) == map[]
    && (forall id | id in tx.plans :: id < tx.nextId)
    && (forall i, j | 0 <= i < j < |ps| :: ps[i] != ps[j])
    && (forall p | p in ps :: p in tx.plans && PlanFits(tx, tx.plans[p]))
    && (forall p, q | p in ps && q in ps && p != q :: tx.plans[p].code != tx.plans[q].code)
  }

  lemma PlanStillAccepted(tx0: Tables, tx: Tables, to: Id, ps: seq<Id>, ids: map<Id, Id>, p: Id)
    requires PlansCopyable(tx0, to, ps) && PlansCopied(tx0, tx, to, ids)
    requires ids.Keys <= Members(ps) && p in ps && p !in ids
    ensures AcceptsPlan(tx, tx0.plans[p].(version := to))
  {
    assert PlanFits(tx0, tx0.plans[p]);
    forall k | k in tx.plans && tx.plans[k].version == to
      ensures tx.plans[k].code != tx0.plans[p].code
    {
      assert k in tx0.plans ==> k in PlansAt(tx0.plans, to);
      var x :| x in ids && ids[x] == k;
      assert x in Members(ps);
    }
  }

  lemma NextPlanCopy(tx0: Tables, tx: Tables, to: Id, ps: seq<Id>, ids: map<Id, Id>, p: Id, row: PlanRow)
    requires PlansCopyable(tx0, to, ps) && PlansCopied(tx0, tx, to, ids) && tx0.nextId <= tx.nextId
    requires ids.Keys <= Members(ps) && p in ps && p !in ids && tx.nextId !in tx.plans
    requires row == tx0.plans[p].(version := to)
    ensures AcceptsPlan(tx, row) && PlansCopied(tx0, InsertPlan(tx, row), to, ids[p := tx.nextId])
  {
    PlanStillAccepted(tx0, tx, to, ps, ids, p);
    CopyOneMore(tx0.plans, tx.plans, tx0.nextId, ids, p, tx.nextId, row);
  }

  method ClonePlans(tx0: Tables, ps: seq<Id>, to: Id) returns (tx: Tables, ids: map<Id, Id>)
    requires PlansCopyable(tx0, to, ps)
    ensures PlansCopied(tx0, tx, to, ids) && tx0.nextId <= tx.nextId
    ensures ids.Keys == Members(ps)
    ensures forall id | id in tx.plans :: id < tx.nextId
  {
    tx, ids := tx0, map[];
    for i := 0 to |ps|
      invariant PlansCopied(tx0, tx, to, ids) && tx0.nextId <= tx.nextId
      invariant ids.Keys == Members(ps[..i])
      invariant forall id | id in tx.plans :: id < tx.nextId
    {
      var p := ps[i];
      NextMember(ps, i);
      var row := tx0.plans[p].(version := to);
      NextPlanCopy(tx0, tx, to, ps, ids, p, row);
      ids := ids[p := tx.nextId];
      tx := InsertPlan(tx, row);
    }
    assert ps[..|ps|] == ps;
  }

  lemma PlansCopyFits(tx0: Tables, tx: Tables, from: Id, to: Id, ids: map<Id, Id>)
    requires RowsOk(tx0) && IsDraft(tx0, to) && tx0.nextId <= tx.nextId
    requires PlansCopied(tx0, tx, to, ids) && ids.Keys == PlansAt(tx0.plans, from).Keys
    requires forall id | id in tx.plans :: id < tx.nextId
    ensures RowsOk(tx)
  {
    RowsStayOk(tx0, tx);
    forall id | id in tx.plans && id !in tx0.plans
      ensures PlanFits(tx, tx.plans[id])
    {
      var p :| p in ids && ids[p] == id;
      assert PlanFits(tx0, tx0.plans[p]);
    }
  }

  lemma PlansCopyUnique(tx0: Tables, tx: Tables, from: Id, to: Id, ids: map<Id, Id>)
    requires PlanCodesUnique(tx0.plans) && PlansAt(tx0.plans, to) == map[]
    requires PlansCopied(tx0, tx, to, ids) && ids.Keys == PlansAt(tx0.plans, from).Keys
    ensures PlanCodesUnique(tx.plans)
  {
    forall i, j | i in tx.plans && j in tx.plans && i != j && tx.plans[i].version == tx.plans[j].version
      ensures tx.plans[i].code != tx.plans[j].code
    {
      if tx.plans[i].version == to {
        assert i in tx0.plans ==> i in PlansAt(tx0.plans, to);
        assert j in tx0.plans ==> j in PlansAt(tx0.plans, to);
        var x :| x in ids && ids[x] == i;
        var y :| y in ids && ids[y] == j;
        assert x in PlansAt(tx0.plans, from) && y in PlansAt(tx0.plans, from);
      }
    }
  }

  lemma PlansCopyKeeps(tx0: Tables, tx: Tables, from: Id, to: Id, ids: map<Id, Id>)
    requires Invariant(tx0) && IsDraft(tx0, to) && PlansAt(tx0.plans, to) == map[] && tx0.nextId <= tx.nextId
    requires PlansCopied(tx0, tx, to, ids) && ids.Keys == PlansAt(tx0.plans, from).Keys
    requires forall id | id in tx.plans :: id < tx.nextId
    ensures Invariant(tx) && Evolves(tx0, tx)
  {
    PlansCopyFits(tx0, tx, from, to, ids);
    PlansCopyUnique(tx0, tx, from, to, ids);
    PlansCopyDone(tx0, tx, from, to, ids);
    DraftChangeKeeps(tx0, tx);
  }

  lemma PlansCopyDone(a: Tables, b: Tables, from: Id, to: Id, ids: map<Id, Id>)
    requires PlansCopied(a, b, to, ids) && PlansAt(a.plans, to) == map[]
    requires ids.Keys == PlansAt(a.plans, from).Keys
    ensures Bijection(ids, PlansAt(a.plans, from).Keys, PlansAt(b.plans, to).Keys)
    ensures forall w | w != to :: PlansAt(b.plans, w) == PlansAt(a.plans, w)
  {
    forall k | k in b.plans && k !in a.plans
      ensures b.plans[k].version == to
    {
      var x :| x in ids && ids[x] == k;
    }
    forall k | k in PlansAt(b.plans, to)
      ensures k in ids.Values
    {
      assert k in a.plans ==> k in PlansAt(a.plans, to);
    }
    assert ids.Values == PlansAt(b.plans, to).Keys;
    forall w | w != to
      ensures PlansAt(b.plans, w) == PlansAt(a.plans, w)
    {
    }
  }

  /** The plans and metrics of `from` have their copies under `to` already. */
  predicate Mapped(a: Tables, from: Id, to: Id, metricIDs: map<Id, Id>, planIDs: map<Id, Id>) {
    && Bijection(metricIDs, MetricsAt(a.metrics, from).Keys, MetricsAt(a.metrics, to).Keys)
    && Bijection(planIDs, PlansAt(a.plans, from).Keys, PlansAt(a.plans, to).Keys)
    && forall p | p in planIDs :: p in a.plans && planIDs[p] in a.plans && CopiedPlan(a.plans[p], a.plans[planIDs[p]])
  }

  function PriceCopy(row: PriceRow, to: Id, metricIDs: map<Id, Id>, planIDs: map<Id, Id>): PriceRow
    requires row.plan in planIDs && (row.metric.Some? ==> row.metric.value in metricIDs)
  {
    row.(plan := planIDs[row.plan], version := to,
         metric := if row.metric.Some? then Some(metricIDs[row.metric.value]) else None)
  }

  predicate Portable(row: PriceRow, metricIDs: map<Id, Id>, planIDs: map<Id, Id>) {
    row.plan in planIDs && (row.metric.Some? ==> row.metric.value in metricIDs)
  }

  /** The prices of `from` listed so far have copies under `to`. */
  predicate PricesCopied(a: Tables, b: Tables, to: Id, metricIDs: map<Id, Id>, planIDs: map<Id, Id>, ids: map<Id, Id>) {
    && b == a.(prices := b.prices, nextId := b.nextId)
    && Copied(a.prices, b.prices, a.nextId, ids)
    && forall r | r in ids :: r in a.prices && ids[r] in b.prices && Portable(a.prices[r], metricIDs, planIDs)
                              && b.prices[ids[r]] == PriceCopy(a.prices[r], to, metricIDs, planIDs)
  }

  /** What the database asks of a price's copy. */
  predicate PriceCopyable(tx: Tables, to: Id, metricIDs: map<Id, Id>, planIDs: map<Id, Id>, r: Id) {
    && r in tx.prices && Portable(tx.prices[r], metricIDs, planIDs)
    && var row := PriceCopy(tx.prices[r], to, metricIDs, planIDs);
      AcceptsPrice(tx, row) && PriceFits(tx, row)
  }

  lemma PriceToCopy(tx0: Tables, from: Id, to: Id, metricIDs: map<Id, Id>, planIDs: map<Id, Id>, r: Id)
    requires RowsOk(tx0) && IsDraft(tx0, to) && Mapped(tx0, from, to, metricIDs, planIDs)
    requires r in PricesAt(tx0.prices, from)
    ensures PriceCopyable(tx0, to, metricIDs, planIDs, r)
  {
    var row := tx0.prices[r];
    assert PriceFits(tx0, row);
    assert row.plan in PlansAt(tx0.plans, from);
    assert planIDs[row.plan] in PlansAt(tx0.plans, to);
    if row.metric.Some? {
      assert row.metric.value in MetricsAt(tx0.metrics, from);
      assert metricIDs[row.metric.value] in metricIDs.Values;
    }
    assert CopiedPlan(tx0.plans[row.plan], tx0.plans[planIDs[row.plan]]);
  }

  lemma NextPriceCopy(tx0: Tables, tx: Tables, to: Id, metricIDs: map<Id, Id>, planIDs: map<Id, Id>, ids: map<Id, Id>,
                      r: Id, row: PriceRow)
    requires PricesCopied(tx0, tx, to, metricIDs, planIDs, ids) && tx0.nextId <= tx.nextId
    requires PriceCopyable(tx0, to, metricIDs, planIDs, r) && r !in ids && tx.nextId !in tx.prices
    requires row == PriceCopy(tx0.prices[r], to, metricIDs, planIDs)
    ensures AcceptsPrice(tx, row)
    ensures PricesCopied(tx0, InsertPrice(tx, row), to, metricIDs, planIDs, ids[r := tx.nextId])
  {
    CopyOneMore(tx0.prices, tx.prices, tx0.nextId, ids, r, tx.nextId, row);
  }

  method ClonePrices(tx0: Tables, prices: seq<Id>, to: Id, metricIDs: map<Id, Id>, planIDs: map<Id, Id>)
    returns (tx: Tables, ghost ids: map<Id, Id>)
    requires forall id | id in tx0.prices :: id < tx0.nextId
    requires forall i, j | 0 <= i < j < |prices| :: prices[i] != prices[j]
    requires forall r | r in prices :: PriceCopyable(tx0, to, metricIDs, planIDs, r)
    ensures PricesCopied(tx0, tx, to, metricIDs, planIDs, ids) && tx0.nextId <= tx.nextId
    ensures ids.Keys == Members(prices)
    ensures forall id | id in tx.prices :: id < tx.nextId
  {
    tx, ids := tx0, map[];
    for i := 0 to |prices|
      invariant PricesCopied(tx0, tx, to, metricIDs, planIDs, ids) && tx0.nextId <= tx.nextId
      invariant ids.Keys == Members(prices[..i])
      invariant forall id | id in tx.prices :: id < tx.nextId
    {
      var r := prices[i];
      NextMember(prices, i);
      var row := PriceCopy(tx0.prices[r], to, metricIDs, planIDs);
      NextPriceCopy(tx0, tx, to, metricIDs, planIDs, ids, r, row);
      ids := ids[r := tx.nextId];
      tx := InsertPrice(tx, row);
    }
    assert prices[..|prices|] == prices;
  }

  lemma PricesCopyFits(tx0: Tables, tx: Tables, from: Id, to: Id, metricIDs: map<Id, Id>, planIDs: map<Id, Id>,
                       ids: map<Id, Id>)
    requires RowsOk(tx0) && IsDraft(tx0, to) && tx0.nextId <= tx.nextId && Mapped(tx0, from, to, metricIDs, planIDs)
    requires PricesCopied(tx0, tx, to, metricIDs, planIDs, ids) && ids.Keys == PricesAt(tx0.prices, from).Keys
    requires forall id | id in tx.prices :: id < tx.nextId
    ensures RowsOk(tx)
  {
    RowsStayOk(tx0, tx);
    forall id | id in tx.prices && id !in tx0.prices
      ensures PriceFits(tx, tx.prices[id])
    {
      var r :| r in ids && ids[r] == id;
      PriceToCopy(tx0, from, to, metricIDs, planIDs, r);
    }
  }

  lemma PricesCopyKeeps(tx0: Tables, tx: Tables, from: Id, to: Id, metricIDs: map<Id, Id>, planIDs: map<Id, Id>,
                        ids: map<Id, Id>)
    requires Invariant(tx0) && IsDraft(tx0, to) && tx0.nextId <= tx.nextId
    requires Mapped(tx0, from, to, metricIDs, planIDs) && PricesAt(tx0.prices, to) == map[]
    requires PricesCopied(tx0, tx, to, metricIDs, planIDs, ids) && ids.Keys == PricesAt(tx0.prices, from).Keys
    requires forall id | id in tx.prices :: id < tx.nextId
    ensures Invariant(tx) && Evolves(tx0, tx)
  {
    PricesCopyFits(tx0, tx, from, to, metricIDs, planIDs, ids);
    PricesCopyDone(tx0, tx, from, to, metricIDs, planIDs, ids);
    DraftChangeKeeps(tx0, tx);
  }

  lemma PricesCopyDone(a: Tables, b: Tables, from: Id, to: Id, metricIDs: map<Id, Id>, planIDs: map<Id, Id>,
                       ids: map<Id, Id>)
    requires PricesCopied(a, b, to, metricIDs, planIDs, ids) && PricesAt(a.prices, to) == map[]
    requires ids.Keys == PricesAt(a.prices, from).Keys
    ensures Bijection(ids, PricesAt(a.prices, from).Keys, PricesAt(b.prices, to).Keys)
    ensures forall w | w != to :: PricesAt(b.prices, w) == PricesAt(a.prices, w)
  {
    forall k | k in b.prices && k !in a.prices
      ensures b.prices[k].version == to
    {
      var x :| x in ids && ids[x] == k;
    }
    forall k | k in PricesAt(b.prices, to)
      ensures k in ids.Values
    {
      assert k in a.prices ==> k in PricesAt(a.prices, to);
    }
    assert ids.Values == PricesAt(b.prices, to).Keys;
    forall w | w != to
      ensures PricesAt(b.prices, w) == PricesAt(a.prices, w)
    {
    }
  }

  /** The grants of `from` listed so far have copies under `to`. */
  predicate GrantsCopied(a: Tables, b: Tables, to: Id, planIDs: map<Id, Id>, ids: map<Id, Id>) {
    && b == a.(grants := b.grants, nextId := b.nextId)
    && Copied(a.grants, b.grants, a.nextId, ids)
    && forall g | g in ids :: g in a.grants && ids[g] in b.grants && a.grants[g].plan in planIDs
                              && b.grants[ids[g]] == GrantCopy(a.grants[g], to, planIDs)
  }

  function GrantCopy(row: GrantRow, to: Id, planIDs: map<Id, Id>): GrantRow
    requires row.plan in planIDs
  {
    row.(plan := planIDs[row.plan], version := to)
  }

  predicate GrantCopyable(tx: Tables, to: Id, planIDs: map<Id, Id>, g: Id) {
    && g in tx.grants && tx.grants[g].plan in planIDs
    && var row := GrantCopy(tx.grants[g], to, planIDs);
      AcceptsGrant(tx, row) && GrantFits(tx, row)
  }

  /** Copies of different grants differ in plan or key. */
  predicate GrantCopiesDistinct(t: map<Id, GrantRow>, planIDs: map<Id, Id>, some: set<Id>) {
    forall g, h | g in some && h in some && g != h ::
      g in t && h in t && t[g].plan in planIDs && t[h].plan in planIDs
      && !(planIDs[t[g].plan] == planIDs[t[h].plan] && t[g].key == t[h].key)
  }

  lemma GrantToCopy(tx0: Tables, from: Id, to: Id, metricIDs: map<Id, Id>, planIDs: map<Id, Id>, g: Id)
    requires RowsOk(tx0) && IsDraft(tx0, to) && Mapped(tx0, from, to, metricIDs, planIDs)
    requires GrantsAt(tx0.grants, to) == map[] && g in GrantsAt(tx0.grants, from)
    ensures GrantCopyable(tx0, to, planIDs, g)
  {
    var row := tx0.grants[g];
    assert GrantFits(tx0, row);
    assert row.plan in PlansAt(tx0.plans, from);
    assert planIDs[row.plan] in PlansAt(tx0.plans, to);
    forall k | k in tx0.grants
      ensures tx0.grants[k].plan != planIDs[row.plan]
    {
      assert GrantFits(tx0, tx0.grants[k]);
      assert k !in GrantsAt(tx0.grants, to);
    }
  }

  lemma GrantsToCopy(tx0: Tables, from: Id, to: Id, metricIDs: map<Id, Id>, planIDs: map<Id, Id>)
    requires RowsOk(tx0) && GrantKeysUnique(tx0.grants) && IsDraft(tx0, to)
    requires Mapped(tx0, from, to, metricIDs, planIDs) && GrantsAt(tx0.grants, to) == map[]
    ensures GrantCopiesDistinct(tx0.grants, planIDs, GrantsAt(tx0.grants, from).Keys)
  {
    forall g | g in GrantsAt(tx0.grants, from)
      ensures tx0.grants[g].plan in planIDs
    {
      GrantToCopy(tx0, from, to, metricIDs, planIDs, g);
    }
  }

  lemma GrantStillAccepted(tx0: Tables, tx: Tables, to: Id, planIDs: map<Id, Id>, ids: map<Id, Id>, g: Id)
    requires GrantsCopied(tx0, tx, to, planIDs, ids) && g !in ids && GrantCopyable(tx0, to, planIDs, g)
    requires GrantCopiesDistinct(tx0.grants, planIDs, ids.Keys + {g})
    ensures AcceptsGrant(tx, GrantCopy(tx0.grants[g], to, planIDs))
  {
    var row := GrantCopy(tx0.grants[g], to, planIDs);
    forall k | k in tx.grants
      ensures !(tx.grants[k].plan == row.plan && tx.grants[k].key == row.key)
    {
      if k !in tx0.grants {
        var x :| x in ids && ids[x] == k;
        assert x in ids.Keys + {g} && g in ids.Keys + {g};
      }
    }
  }

  lemma NextGrantCopy(tx0: Tables, tx: Tables, to: Id, planIDs: map<Id, Id>, ids: map<Id, Id>, g: Id, row: GrantRow)
    requires GrantsCopied(tx0, tx, to, planIDs, ids) && tx0.nextId <= tx.nextId
    requires GrantCopyable(tx0, to, planIDs, g) && g !in ids && tx.nextId !in tx.grants
    requires GrantCopiesDistinct(tx0.grants, planIDs, ids.Keys + {g})
    requires row == GrantCopy(tx0.grants[g], to, planIDs)
    ensures AcceptsGrant(tx, row) && GrantsCopied(tx0, InsertGrant(tx, row), to, planIDs, ids[g := tx.nextId])
  {
    GrantStillAccepted(tx0, tx, to, planIDs, ids, g);
    CopyOneMore(tx0.grants, tx.grants, tx0.nextId, ids, g, tx.nextId, row);
  }

  method CloneGrants(tx0: Tables, grants: seq<Id>, to: Id, planIDs: map<Id, Id>)
    returns (tx: Tables, ghost ids: map<Id, Id>)
    requires forall id | id in tx0.grants :: id < tx0.nextId
    requires forall i, j | 0 <= i < j < |grants| :: grants[i] != grants[j]
    requires forall g | g in grants :: GrantCopyable(tx0, to, planIDs, g)
    requires GrantCopiesDistinct(tx0.grants, planIDs, Members(grants))
    ensures GrantsCopied(tx0, tx, to, planIDs, ids) && tx0.nextId <= tx.nextId
    ensures ids.Keys == Members(grants)
    ensures forall id | id in tx.grants :: id < tx.nextId
  {
    tx, ids := tx0, map[];
    for i := 0 to |grants|
      invariant GrantsCopied(tx0, tx, to, planIDs, ids) && tx0.nextId <= tx.nextId
      invariant ids.Keys == Members(grants[..i])
      invariant forall id | id in tx.grants :: id < tx.nextId
    {
      var g := grants[i];
      NextMember(grants, i);
      var row := GrantCopy(tx0.grants[g], to, planIDs);
      assert ids.Keys + {g} <= Members(grants);
      NextGrantCopy(tx0, tx, to, planIDs, ids, g, row);
      ids := ids[g := tx.nextId];
      tx := InsertGrant(tx, row);
    }
    assert grants[..|grants|] == grants;
  }

  lemma GrantsCopyFits(tx0: Tables, tx: Tables, from: Id, to: Id, metricIDs: map<Id, Id>, planIDs: map<Id, Id>,
                       ids: map<Id, Id>)
    requires RowsOk(tx0) && IsDraft(tx0, to) && tx0.nextId <= tx.nextId
    requires Mapped(tx0, from, to, metricIDs, planIDs) && GrantsAt(tx0.grants, to) == map[]
    requires GrantsCopied(tx0, tx, to, planIDs, ids) && ids.Keys == GrantsAt(tx0.grants, from).Keys
    requires forall id | id in tx.grants :: id < tx.nextId
    ensures RowsOk(tx)
    ensures forall id, k | id in tx.grants && id !in tx0.grants && k in tx0.grants ::
              !(tx0.grants[k].plan == tx.grants[id].plan && tx0.grants[k].key == tx.grants[id].key)
  {
    RowsStayOk(tx0, tx);
    forall id | id in tx.grants && id !in tx0.grants
      ensures GrantFits(tx, tx.grants[id])
      ensures forall k | k in tx0.grants ::
                !(tx0.grants[k].plan == tx.grants[id].plan && tx0.grants[k].key == tx.grants[id].key)
    {
      var g :| g in ids && ids[g] == id;
      GrantToCopy(tx0, from, to, metricIDs, planIDs, g);
    }
  }

  lemma GrantsCopyUnique(tx0: Tables, tx: Tables, from: Id, to: Id, planIDs: map<Id, Id>, ids: map<Id, Id>)
    requires GrantKeysUnique(tx0.grants) && GrantsCopied(tx0, tx, to, planIDs, ids)
    requires GrantCopiesDistinct(tx0.grants, planIDs, ids.Keys)
    requires forall id, k | id in tx.grants && id !in tx0.grants && k in tx0.grants ::
               !(tx0.grants[k].plan == tx.grants[id].plan && tx0.grants[k].key == tx.grants[id].key)
    ensures GrantKeysUnique(tx.grants)
  {
    forall id | id in tx.grants && id !in tx0.grants
      ensures exists g :: g in ids && ids[g] == id
    {
    }
  }

  lemma GrantsCopyKeeps(tx0: Tables, tx: Tables, from: Id, to: Id, metricIDs: map<Id, Id>, planIDs: map<Id, Id>,
                        ids: map<Id, Id>)
    requires Invariant(tx0) && IsDraft(tx0, to) && tx0.nextId <= tx.nextId
    requires Mapped(tx0, from, to, metricIDs, planIDs) && GrantsAt(tx0.grants, to) == map[]
    requires GrantsCopied(tx0, tx, to, planIDs, ids) && ids.Keys == GrantsAt(tx0.grants, from).Keys
    requires forall id | id in tx.grants :: id < tx.nextId
    ensures Invariant(tx) && Evolves(tx0, tx)
  {
    GrantsCopyFits(tx0, tx, from, to, metricIDs, planIDs, ids);
    GrantsToCopy(tx0, from, to, metricIDs, planIDs);
    GrantsCopyUnique(tx0, tx, from, to, planIDs, ids);
    GrantsCopyDone(tx0, tx, from, to, planIDs, ids);
    DraftChangeKeeps(tx0, tx);
  }

  lemma GrantsCopyDone(a: Tables, b: Tables, from: Id, to: Id, planIDs: map<Id, Id>, ids: map<Id, Id>)
    requires GrantsCopied(a, b, to, planIDs, ids) && GrantsAt(a.grants, to) == map[]
    requires ids.Keys == GrantsAt(a.grants, from).Keys
    ensures Bijection(ids, GrantsAt(a.grants, from).Keys, GrantsAt(b.grants, to).Keys)
    ensures forall w | w != to :: GrantsAt(b.grants, w) == GrantsAt(a.grants, w)
  {
    forall k | k in b.grants && k !in a.grants
      ensures b.grants[k].version == to
    {
      var x :| x in ids && ids[x] == k;
    }
    forall k | k in GrantsAt(b.grants, to)
      ensures k in ids.Values
    {
      assert k in a.grants ==> k in GrantsAt(a.grants, to);
    }
    assert ids.Values == GrantsAt(b.grants, to).Keys;
    forall w | w != to
      ensures GrantsAt(b.grants, w) == GrantsAt(a.grants, w)
    {
    }
  }

  lemma NowMapped(tx0: Tables, tx1: Tables, tx2: Tables, from: Id, to: Id, metricIDs: map<Id, Id>, planIDs: map<Id, Id>)
    requires from != to && MetricsCopied(tx0, tx1, to, metricIDs) && PlansCopied(tx1, tx2, to, planIDs)
    requires MetricsAt(tx0.metrics, to) == map[] && PlansAt(tx0.plans, to) == map[]
    requires metricIDs.Keys == MetricsAt(tx0.metrics, from).Keys && planIDs.Keys == PlansAt(tx0.plans, from).Keys
    ensures Mapped(tx2, from, to, metricIDs, planIDs)
  {
    MetricsCopyDone(tx0, tx1, from, to, metricIDs);
    PlansCopyDone(tx1, tx2, from, to, planIDs);
  }

  /** The four stages of a clone: each leaves the other tables alone. */
  ghost predicate Cloned(tx0: Tables, tx1: Tables, tx2: Tables, tx3: Tables, tx: Tables, to: Id, f: Copying) {
    && MetricsCopied(tx0, tx1, to, f.metrics)
    && PlansCopied(tx1, tx2, to, f.plans)
    && PricesCopied(tx2, tx3, to, f.metrics, f.plans, f.prices)
    && GrantsCopied(tx3, tx, to, f.plans, f.grants)
  }

  lemma CloneRows(tx0: Tables, tx1: Tables, tx2: Tables, tx3: Tables, tx: Tables, from: Id, to: Id, f: Copying)
    requires Cloned(tx0, tx1, tx2, tx3, tx, to, f)
    ensures forall m | m in f.metrics :: m in tx0.metrics && f.metrics[m] in tx.metrics
                                         && MetricIn(tx.metrics[f.metrics[m]]) == MetricIn(tx0.metrics[m])
    ensures forall p | p in f.plans :: p in tx0.plans && f.plans[p] in tx.plans
                                       && CopiedPlan(tx0.plans[p], tx.plans[f.plans[p]])
    ensures forall r | r in f.prices :: r in tx0.prices && f.prices[r] in tx.prices
                                        && CopiedPrice(f, tx0.prices[r], tx.prices[f.prices[r]])
    ensures forall g | g in f.grants :: g in tx0.grants && f.grants[g] in tx.grants
                                        && CopiedGrant(f, tx0.grants[g], tx.grants[f.grants[g]])
  {
    forall r | r in f.prices
      ensures CopiedPrice(f, tx0.prices[r], tx.prices[f.prices[r]])
    {
      assert tx3.prices[f.prices[r]] == PriceCopy(tx0.prices[r], to, f.metrics, f.plans);
    }
  }

  lemma CloneIsCopy(tx0: Tables, tx1: Tables, tx2: Tables, tx3: Tables, tx: Tables, from: Id, to: Id, f: Copying)
    requires Cloned(tx0, tx1, tx2, tx3, tx, to, f)
    requires Bijection(f.metrics, MetricsAt(tx0.metrics, from).Keys, MetricsAt(tx.metrics, to).Keys)
    requires Bijection(f.plans, PlansAt(tx0.plans, from).Keys, PlansAt(tx.plans, to).Keys)
    requires Bijection(f.prices, PricesAt(tx0.prices, from).Keys, PricesAt(tx.prices, to).Keys)
    requires Bijection(f.grants, GrantsAt(tx0.grants, from).Keys, GrantsAt(tx.grants, to).Keys)
    ensures IsCopy(RowsOf(tx0, from), RowsOf(tx, to), f)
  {
    CloneRows(tx0, tx1, tx2, tx3, tx, from, to, f);
  }

  /** No row of version `v` bears an id that was in use before `next`. */
  predicate AllNew(r: Rows, next: Id) {
    && (forall id | id in r.metrics :: id >= next)
    && (forall id | id in r.plans :: id >= next)
    && (forall id | id in r.prices :: id >= next)
    && (forall id | id in r.grants :: id >= next)
  }

  lemma CloneIsNew(tx0: Tables, tx1: Tables, tx2: Tables, tx3: Tables, tx: Tables, to: Id, f: Copying)
    requires Cloned(tx0, tx1, tx2, tx3, tx, to, f)
    requires tx0.nextId <= tx1.nextId <= tx2.nextId <= tx3.nextId
    requires RowsOf(tx0, to) == Rows(map[], map[], map[], map[])
    ensures AllNew(RowsOf(tx, to), tx0.nextId)
  {
    var r := RowsOf(tx, to);
    forall id | id in r.metrics
      ensures id !in tx0.metrics
    {
      assert id in tx0.metrics ==> id in MetricsAt(tx0.metrics, to);
    }
    forall id | id in r.plans
      ensures id !in tx0.plans
    {
      assert id in tx0.plans ==> id in PlansAt(tx0.plans, to);
    }
    forall id | id in r.prices
      ensures id !in tx0.prices
    {
      assert id in tx0.prices ==> id in PricesAt(tx0.prices, to);
    }
    forall id | id in r.grants
      ensures id !in tx0.grants
    {
      assert id in tx0.grants ==> id in GrantsAt(tx0.grants, to);
    }
  }

  const NO_ROWS := Rows(map[], map[], map[], map[])

  method CloneListedMetrics(tx0: Tables, from: Id, to: Id, ms: seq<Id>) returns (tx: Tables, ids: map<Id, Id>)
    requires Invariant(tx0) && IsDraft(tx0, to) && MetricsAt(tx0.metrics, to) == map[]
    requires Enumerates(ms, MetricsAt(tx0.metrics, from).Keys)
    ensures Invariant(tx) && Evolves(tx0, tx) && MetricsCopied(tx0, tx, to, ids)
    ensures ids.Keys == MetricsAt(tx0.metrics, from).Keys
  {
    assert Members(ms) == MetricsAt(tx0.metrics, from).Keys;
    assert forall m | m in ms :: MetricFits(tx0, tx0.metrics[m]);
    tx, ids := CloneMetrics(tx0, ms, to);
    MetricsCopyKeeps(tx0, tx, from, to, ids);
  }

  method CloneListedPlans(tx0: Tables, from: Id, to: Id, ps: seq<Id>) returns (tx: Tables, ids: map<Id, Id>)
    requires Invariant(tx0) && IsDraft(tx0, to) && PlansAt(tx0.plans, to) == map[]
    requires Enumerates(ps, PlansAt(tx0.plans, from).Keys)
    ensures Invariant(tx) && Evolves(tx0, tx) && PlansCopied(tx0, tx, to, ids)
    ensures ids.Keys == PlansAt(tx0.plans, from).Keys
  {
    assert Members(ps) == PlansAt(tx0.plans, from).Keys;
    assert forall p | p in ps :: PlanFits(tx0, tx0.plans[p]);
    tx, ids := ClonePlans(tx0, ps, to);
    PlansCopyKeeps(tx0, tx, from, to, ids);
  }

  lemma ListedPricesToCopy(tx0: Tables, from: Id, to: Id, metricIDs: map<Id, Id>, planIDs: map<Id, Id>, prices: seq<Id>)
    requires RowsOk(tx0) && IsDraft(tx0, to) && Mapped(tx0, from, to, metricIDs, planIDs)
    requires Enumerates(prices, PricesAt(tx0.prices, from).Keys)
    ensures Members(prices) == PricesAt(tx0.prices, from).Keys
    ensures forall r | r in prices :: PriceCopyable(tx0, to, metricIDs, planIDs, r)
  {
    forall r | r in prices
      ensures PriceCopyable(tx0, to, metricIDs, planIDs, r)
    {
      PriceToCopy(tx0, from, to, metricIDs, planIDs, r);
    }
  }

  lemma ListedGrantsToCopy(tx0: Tables, from: Id, to: Id, metricIDs: map<Id, Id>, planIDs: map<Id, Id>, grants: seq<Id>)
    requires RowsOk(tx0) && GrantKeysUnique(tx0.grants) && IsDraft(tx0, to)
    requires Mapped(tx0, from, to, metricIDs, planIDs) && GrantsAt(tx0.grants, to) == map[]
    requires Enumerates(grants, GrantsAt(tx0.grants, from).Keys)
    ensures Members(grants) == GrantsAt(tx0.grants, from).Keys
    ensures forall g | g in grants :: GrantCopyable(tx0, to, planIDs, g)
    ensures GrantCopiesDistinct(tx0.grants, planIDs, Members(grants))
  {
    forall g | g in grants
      ensures GrantCopyable(tx0, to, planIDs, g)
    {
      GrantToCopy(tx0, from, to, metricIDs, planIDs, g);
    }
    GrantsToCopy(tx0, from, to, metricIDs, planIDs);
  }

  /** The prices of `from`, as listed, are copied under `to`. */
  method CloneListedPrices(tx0: Tables, from: Id, to: Id, metricIDs: map<Id, Id>, planIDs: map<Id, Id>, prices: seq<Id>)
    returns (tx: Tables, ghost ids: map<Id, Id>)
    requires Invariant(tx0) && IsDraft(tx0, to) && PricesAt(tx0.prices, to) == map[]
    requires Mapped(tx0, from, to, metricIDs, planIDs) && Enumerates(prices, PricesAt(tx0.prices, from).Keys)
    ensures Invariant(tx) && Evolves(tx0, tx) && PricesCopied(tx0, tx, to, metricIDs, planIDs, ids)
    ensures ids.Keys == PricesAt(tx0.prices, from).Keys
  {
    ListedPricesToCopy(tx0, from, to, metricIDs, planIDs, prices);
    tx, ids := ClonePrices(tx0, prices, to, metricIDs, planIDs);
    PricesCopyKeeps(tx0, tx, from, to, metricIDs, planIDs, ids);
  }

  method CloneListedGrants(tx0: Tables, from: Id, to: Id, ghost metricIDs: map<Id, Id>, planIDs: map<Id, Id>,
                           grants: seq<Id>)
    returns (tx: Tables, ghost ids: map<Id, Id>)
    requires Invariant(tx0) && IsDraft(tx0, to) && GrantsAt(tx0.grants, to) == map[]
    requires Mapped(tx0, from, to, metricIDs, planIDs) && Enumerates(grants, GrantsAt(tx0.grants, from).Keys)
    ensures Invariant(tx) && Evolves(tx0, tx) && GrantsCopied(tx0, tx, to, planIDs, ids)
    ensures ids.Keys == GrantsAt(tx0.grants, from).Keys
  {
    ListedGrantsToCopy(tx0, from, to, metricIDs, planIDs, grants);
    tx, ids := CloneGrants(tx0, grants, to, planIDs);
    GrantsCopyKeeps(tx0, tx, from, to, metricIDs, planIDs, ids);
  }

  lemma CloneDone(tx0: Tables, tx1: Tables, tx2: Tables, tx3: Tables, tx: Tables, from: Id, to: Id, f: Copying)
    requires from != to && RowsOf(tx0, to) == NO_ROWS && Cloned(tx0, tx1, tx2, tx3, tx, to, f)
    requires Evolves(tx0, tx1) && Evolves(tx1, tx2) && Evolves(tx2, tx3) && Evolves(tx3, tx)
    requires f.metrics.Keys == MetricsAt(tx0.metrics, from).Keys && f.plans.Keys == PlansAt(tx0.plans, from).Keys
    requires f.prices.Keys == PricesAt(tx0.prices, from).Keys && f.grants.Keys == GrantsAt(tx0.grants, from).Keys
    ensures Evolves(tx0, tx) && SameBut(tx0, tx, to) && AllNew(RowsOf(tx, to), tx0.nextId)
    ensures forall c :: ReadsAs(RowsOf(tx, to), c) <==> ReadsAs(RowsOf(tx0, from), c)
  {
    EvolvesTransitive(tx0, tx1, tx2);
    EvolvesTransitive(tx0, tx2, tx3);
    EvolvesTransitive(tx0, tx3, tx);
    MetricsCopyDone(tx0, tx1, from, to, f.metrics);
    PlansCopyDone(tx1, tx2, from, to, f.plans);
    PricesCopyDone(tx2, tx3, from, to, f.metrics, f.plans, f.prices);
    GrantsCopyDone(tx3, tx, from, to, f.plans, f.grants);
    CloneIsCopy(tx0, tx1, tx2, tx3, tx, from, to, f);
    CloneIsNew(tx0, tx1, tx2, tx3, tx, to, f);
    forall c
      ensures ReadsAs(RowsOf(tx, to), c) <==> ReadsAs(RowsOf(tx0, from), c)
    {
      CopySameContent(RowsOf(tx0, from), RowsOf(tx, to), f, c);
    }
  }

  /**
   * A deep clone: `to` becomes a copy of `from` made of new rows only, so the two versions read back
   * as the same contents, and nothing else in the store changes.
   */
  method CloneContent(tx0: Tables, from: Id, to: Id) returns (tx: Tables)
    requires Invariant(tx0) && from != to && IsDraft(tx0, to) && RowsOf(tx0, to) == NO_ROWS
    ensures Invariant(tx) && Evolves(tx0, tx) && SameBut(tx0, tx, to)
    ensures AllNew(RowsOf(tx, to), tx0.nextId)
    ensures forall c :: ReadsAs(RowsOf(tx, to), c) <==> ReadsAs(RowsOf(tx0, from), c)
  {
    var metrics := Query(MetricsAt(tx0.metrics, from).Keys);
    var plans := Query(PlansAt(tx0.plans, from).Keys);
    var prices := Query(PricesAt(tx0.prices, from).Keys);
    var grants := Query(GrantsAt(tx0.grants, from).Keys);
    var tx1, metricIDs := CloneListedMetrics(tx0, from, to, metrics);
    var tx2, planIDs := CloneListedPlans(tx1, from, to, plans);
    NowMapped(tx0, tx1, tx2, from, to, metricIDs, planIDs);
    ghost var priceIDs, grantIDs;
    var tx3;
    tx3, priceIDs := CloneListedPrices(tx2, from, to, metricIDs, planIDs, prices);
    tx, grantIDs := CloneListedGrants(tx3, from, to, metricIDs, planIDs, grants);
    CloneDone(tx0, tx1, tx2, tx3, tx, from, to, Copying(metricIDs, planIDs, priceIDs, grantIDs));
  }
}
