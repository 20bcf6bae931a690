/**
 * Reading a version's rows back as content, in whatever order the queries list them; what a stored
 * version is worth to the validator; and copies of a version.  A content is read back by the loops of
 * storedContentTx; validation of stored content splits into rules for single rows; and a copy whose
 * references all go to copies reads back as exactly what its original does.
 */
module CatalogReading {
  import opened Prelude
  import opened CatalogContent
  import opened CatalogStore

  // ---- listing rows ----

  /** The ids of a query's result: each row once, in an order the query chooses. */
  predicate Enumerates<K(==)>(ids: seq<K>, rows: set<K>) {
    && (forall i, j | 0 <= i < j < |ids| :: ids[i] != ids[j])
    && (forall id | id in ids :: id in rows)
    && (forall id | id in rows :: id in ids)
  }

  datatype Listing = Listing(metrics: seq<Id>, plans: seq<Id>, prices: seq<Id>, grants: seq<Id>)

  predicate Lists(l: Listing, r: Rows) {
    && Enumerates(l.metrics, r.metrics.Keys)
    && Enumerates(l.plans, r.plans.Keys)
    && Enumerates(l.prices, r.prices.Keys)
    && Enumerates(l.grants, r.grants.Keys)
  }

  /** A query returns the selected rows in an arbitrary order. */
  method Query<K(==)>(rows: set<K>) returns (ids: seq<K>)
    ensures Enumerates(ids, rows)
  {
    ids := [];
    var rest := rows;
    while rest != {}
      invariant rest <= rows && Enumerates(ids, rows - rest)
      decreases rest
    {
      var id :| id in rest;
      ids := ids + [id];
      rest := rest - {id};
    }
  }

  // ---- storedContentTx ----

  function MetricIn(m: MetricRow): MetricInput {
    MetricInput(m.code, m.name, m.aggregation, if m.fieldName.Some? then m.fieldName.value else "", Some(m.billable))
  }

  /** A metric reference restored to its code. */
  function CodeOf(metrics: map<Id, MetricRow>, m: Option<Id>): string {
    if m.Some? && m.value in metrics then metrics[m.value].code else ""
  }

  function PriceIn(metrics: map<Id, MetricRow>, price: PriceRow): PriceInput {
    PriceInput(CodeOf(metrics, price.metric), price.chargeModel, price.properties)
  }

  function GrantIn(g: GrantRow): EntitlementInput {
    EntitlementInput(g.key, g.valueType, g.value)
  }

  function PricesFor(r: Rows, ids: seq<Id>, p: Id): seq<PriceInput>
    requires forall id | id in ids :: id in r.prices
  {
    if ids == [] then []
    else
      var last := ids[|ids| - 1];
      PricesFor(r, ids[..|ids| - 1], p) + if r.prices[last].plan == p then [PriceIn(r.metrics, r.prices[last])] else []
  }

  function GrantsFor(r: Rows, ids: seq<Id>, p: Id): seq<EntitlementInput>
    requires forall id | id in ids :: id in r.grants
  {
    if ids == [] then []
    else
      var last := ids[|ids| - 1];
      GrantsFor(r, ids[..|ids| - 1], p) + if r.grants[last].plan == p then [GrantIn(r.grants[last])] else []
  }

  function PlanIn(r: Rows, l: Listing, p: Id): PlanInput
    requires Lists(l, r) && p in r.plans
  {
    var row := r.plans[p];
    PlanInput(row.code, row.name, row.interval, row.currency, PricesFor(r, l.prices, p), GrantsFor(r, l.grants, p))
  }

  /** The content that rows read back as, when the queries list them as `l`. */
  function ContentOf(r: Rows, l: Listing): (c: Content)
    requires Lists(l, r)
    ensures |c.metrics| == |l.metrics|
            && forall i | 0 <= i < |l.metrics| :: c.metrics[i] == MetricIn(r.metrics[l.metrics[i]])
    ensures |c.plans| == |l.plans| && forall i | 0 <= i < |l.plans| :: c.plans[i] == PlanIn(r, l, l.plans[i])
  {
    Content(seq(|l.metrics|, i requires 0 <= i < |l.metrics| => MetricIn(r.metrics[l.metrics[i]])),
            seq(|l.plans|, i requires 0 <= i < |l.plans| => PlanIn(r, l, l.plans[i])))
  }

  /** Some order of listing reads the rows back as exactly this content. */
  ghost predicate ReadsAs(r: Rows, c: Content) {
    exists l :: Lists(l, r) && ContentOf(r, l) == c
  }

  method StoredMetricContent(r: Rows, ms: seq<Id>) returns (metrics: seq<MetricInput>, codes: map<Id, string>)
    requires forall id | id in ms :: id in r.metrics
    ensures |metrics| == |ms| && forall i | 0 <= i < |ms| :: metrics[i] == MetricIn(r.metrics[ms[i]])
    ensures codes.Keys == set id | id in ms
    ensures forall id | id in codes :: id in r.metrics && codes[id] == r.metrics[id].code
  {
    metrics, codes := [], map[];
    for i := 0 to |ms|
      invariant |metrics| == i && forall j | 0 <= j < i :: metrics[j] == MetricIn(r.metrics[ms[j]])
      invariant codes.Keys == set id | id in ms[..i]
      invariant forall id | id in codes :: id in r.metrics && codes[id] == r.metrics[id].code
    {
      assert ms[..i + 1] == ms[..i] + [ms[i]];
      var m := r.metrics[ms[i]];
      codes := codes[ms[i] := m.code];
      metrics := metrics + [MetricIn(m)];
    }
    assert ms[..|ms|] == ms;
  }

  method StoredPrices(r: Rows, ids: seq<Id>, codes: map<Id, string>) returns (byPlan: map<Id, seq<PriceInput>>)
    requires forall id | id in ids :: id in r.prices
    requires codes.Keys == r.metrics.Keys && forall id | id in codes :: codes[id] == r.metrics[id].code
    ensures forall p :: (if p in byPlan then byPlan[p] else []) == PricesFor(r, ids, p)
  {
    byPlan := map[];
    for i := 0 to |ids|
      invariant forall p :: (if p in byPlan then byPlan[p] else []) == PricesFor(r, ids[..i], p)
    {
      assert ids[..i + 1][..i] == ids[..i];
      var pr := r.prices[ids[i]];
      var code := if pr.metric.Some? && pr.metric.value in codes then codes[pr.metric.value] else "";
      var given := if pr.plan in byPlan then byPlan[pr.plan] else [];
      byPlan := byPlan[pr.plan := given + [PriceInput(code, pr.chargeModel, pr.properties)]];
    }
    assert ids[..|ids|] == ids;
  }

  method StoredGrants(r: Rows, ids: seq<Id>) returns (byPlan: map<Id, seq<EntitlementInput>>)
    requires forall id | id in ids :: id in r.grants
    ensures forall p :: (if p in byPlan then byPlan[p] else []) == GrantsFor(r, ids, p)
  {
    byPlan := map[];
    for i := 0 to |ids|
      invariant forall p :: (if p in byPlan then byPlan[p] else []) == GrantsFor(r, ids[..i], p)
    {
      assert ids[..i + 1][..i] == ids[..i];
      var g := r.grants[ids[i]];
      var given := if g.plan in byPlan then byPlan[g.plan] else [];
      byPlan := byPlan[g.plan := given + [EntitlementInput(g.key, g.valueType, g.value)]];
    }
    assert ids[..|ids|] == ids;
  }

  /** A plan row put together with the prices and grants collected for it. */
  function PlanFrom(row: PlanRow, p: Id, pricesByPlan: map<Id, seq<PriceInput>>,
                    grantsByPlan: map<Id, seq<EntitlementInput>>): PlanInput {
    PlanInput(row.code, row.name, row.interval, row.currency,
              if p in pricesByPlan then pricesByPlan[p] else [], if p in grantsByPlan then grantsByPlan[p] else [])
  }

  method StoredPlans(r: Rows, ps: seq<Id>, pricesByPlan: map<Id, seq<PriceInput>>,
                     grantsByPlan: map<Id, seq<EntitlementInput>>)
    returns (plans: seq<PlanInput>)
    requires forall p | p in ps :: p in r.plans
    ensures |plans| == |ps|
    ensures forall i | 0 <= i < |ps| :: plans[i] == PlanFrom(r.plans[ps[i]], ps[i], pricesByPlan, grantsByPlan)
  {
    plans := [];
    for i := 0 to |ps|
      invariant |plans| == i
      invariant forall j | 0 <= j < i :: plans[j] == PlanFrom(r.plans[ps[j]], ps[j], pricesByPlan, grantsByPlan)
    {
      plans := plans + [PlanFrom(r.plans[ps[i]], ps[i], pricesByPlan, grantsByPlan)];
    }
  }

  /** storedContentTx: the rows of a version put back together, one pass over each query's result. */
  method StoredContent(r: Rows) returns (c: Content)
    ensures ReadsAs(r, c)
  {
    var ms := Query(r.metrics.Keys);
    var ps := Query(r.plans.Keys);
    var prices := Query(r.prices.Keys);
    var grants := Query(r.grants.Keys);
    var l := Listing(ms, ps, prices, grants);
    var metrics, codes := StoredMetricContent(r, ms);
    assert codes.Keys == r.metrics.Keys;
    var pricesByPlan := StoredPrices(r, prices, codes);
    var grantsByPlan := StoredGrants(r, grants);
    var plans := StoredPlans(r, ps, pricesByPlan, grantsByPlan);
    c := Content(metrics, plans);
    StoredAs(r, l, pricesByPlan, grantsByPlan, c);
  }

  lemma StoredAs(r: Rows, l: Listing, pricesByPlan: map<Id, seq<PriceInput>>,
                 grantsByPlan: map<Id, seq<EntitlementInput>>, c: Content)
    requires Lists(l, r)
    requires |c.metrics| == |l.metrics|
             && forall i | 0 <= i < |l.metrics| :: c.metrics[i] == MetricIn(r.metrics[l.metrics[i]])
    requires forall p :: (if p in pricesByPlan then pricesByPlan[p] else []) == PricesFor(r, l.prices, p)
    requires forall p :: (if p in grantsByPlan then grantsByPlan[p] else []) == GrantsFor(r, l.grants, p)
    requires |c.plans| == |l.plans| && forall i | 0 <= i < |l.plans| ::
               c.plans[i] == PlanFrom(r.plans[l.plans[i]], l.plans[i], pricesByPlan, grantsByPlan)
    ensures ReadsAs(r, c)
  {
    assert ContentOf(r, l).metrics == c.metrics;
    forall i | 0 <= i < |l.plans|
      ensures c.plans[i] == PlanIn(r, l, l.plans[i])
    {
      assert l.plans[i] in l.plans;
    }
    assert ContentOf(r, l).plans == c.plans;
  }

  // ---- what a stored version is worth to the validator ----

  lemma {:induction false} PricesForMembers(r: Rows, ids: seq<Id>, p: Id)
    requires forall id | id in ids :: id in r.prices
    ensures forall pr | pr in PricesFor(r, ids, p) ::
              exists id :: id in ids && r.prices[id].plan == p && pr == PriceIn(r.metrics, r.prices[id])
    ensures PricesFor(r, ids, p) != [] <==> exists id :: id in ids && r.prices[id].plan == p
  {
    if ids != [] {
      var init, last := ids[..|ids| - 1], ids[|ids| - 1];
      PricesForMembers(r, init, p);
      assert ids == init + [last];
    }
  }

  lemma {:induction false} GrantsForMembers(r: Rows, ids: seq<Id>, p: Id)
    requires forall id | id in ids :: id in r.grants
    ensures forall e | e in GrantsFor(r, ids, p) ::
              exists id :: id in ids && r.grants[id].plan == p && e == GrantIn(r.grants[id])
  {
    if ids != [] {
      var init, last := ids[..|ids| - 1], ids[|ids| - 1];
      GrantsForMembers(r, init, p);
      assert ids == init + [last];
    }
  }

  lemma {:induction false} GrantsForDistinct(r: Rows, ids: seq<Id>, p: Id)
    requires forall id | id in ids :: id in r.grants
    requires GrantKeysUnique(r.grants) && forall i, j | 0 <= i < j < |ids| :: ids[i] != ids[j]
    ensures KeysDistinct(GrantsFor(r, ids, p))
  {
    if ids != [] {
      var init, last := ids[..|ids| - 1], ids[|ids| - 1];
      GrantsForDistinct(r, init, p);
      GrantsForMembers(r, init, p);
      var es := GrantsFor(r, init, p);
      assert last !in init;
      var all := GrantsFor(r, ids, p);
      assert all == es + if r.grants[last].plan == p then [GrantIn(r.grants[last])] else [];
      forall i | 0 <= i < |es| && r.grants[last].plan == p
        ensures es[i].key != r.grants[last].key
      {
        assert es[i] in es;
        var id :| id in init && r.grants[id].plan == p && es[i] == GrantIn(r.grants[id]);
        assert id in ids && id != last && es[i].key == r.grants[id].key;
      }
    }
  }

  /** The rules for the rows of one version, on their own. */
  predicate VersionRowsOk(r: Rows) {
    && (forall id | id in r.metrics :: MetricOk(r.metrics[id].code, r.metrics[id].aggregation))
    && (forall id | id in r.plans :: PlanHeadOk(r.plans[id].code, r.plans[id].interval, r.plans[id].currency))
    && (forall id | id in r.prices :: VersionPriceOk(r, r.prices[id]))
    && (forall id | id in r.grants :: EntitlementOk(r.grants[id].key, r.grants[id].valueType, r.grants[id].value))
    && (forall i, j | i in r.metrics && j in r.metrics && i != j :: r.metrics[i].code != r.metrics[j].code)
    && (forall i, j | i in r.plans && j in r.plans && i != j :: r.plans[i].code != r.plans[j].code)
    && GrantKeysUnique(r.grants)
  }

  predicate VersionPriceOk(r: Rows, p: PriceRow) {
    && (p.metric.Some? ==> p.metric.value in r.metrics)
    && p.plan in r.plans
    && PriceOk(r.plans[p.plan].currency, p.chargeModel, p.properties, p.metric.Some?)
  }

  predicate VersionComplete(r: Rows) {
    r.plans != map[] && EveryPlanPriced(r)
  }

  lemma StoredPlanOk(r: Rows, l: Listing, p: Id, requireComplete: bool)
    requires Lists(l, r) && VersionRowsOk(r) && p in r.plans
    ensures PlanOk(PlanIn(r, l, p), Codes(ContentOf(r, l).metrics), requireComplete) <==>
            (requireComplete ==> exists id :: id in r.prices && r.prices[id].plan == p)
  {
    var plan, codes := PlanIn(r, l, p), Codes(ContentOf(r, l).metrics);
    PricesForMembers(r, l.prices, p);
    forall pr | pr in plan.prices
      ensures PriceOk(plan.currency, pr.chargeModel, pr.properties, Resolves(pr.metricCode, codes))
    {
      var id :| id in l.prices && r.prices[id].plan == p && pr == PriceIn(r.metrics, r.prices[id]);
      assert VersionPriceOk(r, r.prices[id]);
      if r.prices[id].metric.Some? {
        StoredCodes(r, l, r.prices[id].metric.value);
      }
    }
    GrantsForMembers(r, l.grants, p);
    forall e | e in plan.entitlements
      ensures EntitlementOk(e.key, e.valueType, e.value)
    {
      var id :| id in l.grants && r.grants[id].plan == p && e == GrantIn(r.grants[id]);
      assert id in r.grants;
    }
    GrantsForDistinct(r, l.grants, p);
    assert EntitlementsOk(plan.entitlements);
  }

  lemma StoredCodes(r: Rows, l: Listing, m: Id)
    requires Lists(l, r) && m in r.metrics
    ensures r.metrics[m].code in Codes(ContentOf(r, l).metrics)
  {
    var i :| 0 <= i < |l.metrics| && l.metrics[i] == m;
    assert ContentOf(r, l).metrics[i] in ContentOf(r, l).metrics;
  }

  /**
   * Whole-catalogue validation splits into the rules for single rows: stored content always passes
   * the structural rules, and the publish-time rules exactly when the version is complete, in
   * whatever order its rows are listed.
   */
  lemma StoredContentOk(r: Rows, l: Listing)
    requires Lists(l, r) && VersionRowsOk(r)
    ensures CatalogOk(ContentOf(r, l), false)
    ensures CatalogOk(ContentOf(r, l), true) <==> VersionComplete(r)
  {
    StoredMetricsOk(r, l);
    StoredPlansOk(r, l, false);
    StoredPlansOk(r, l, true);
    SomePlan(r, l);
  }

  lemma SomePlan(r: Rows, l: Listing)
    requires Lists(l, r)
    ensures ContentOf(r, l).plans != [] <==> r.plans != map[]
  {
    if r.plans != map[] {
      var p :| p in r.plans;
      assert p in l.plans;
    }
    if l.plans != [] {
      assert l.plans[0] in l.plans;
    }
  }

  lemma StoredMetricsOk(r: Rows, l: Listing)
    requires Lists(l, r) && VersionRowsOk(r)
    ensures MetricsOk(ContentOf(r, l).metrics)
  {
    var ms := ContentOf(r, l).metrics;
    forall m | m in ms
      ensures MetricOk(m.code, m.aggregation)
    {
      var i :| 0 <= i < |ms| && ms[i] == m;
      assert l.metrics[i] in l.metrics;
    }
    forall i, j | 0 <= i < j < |ms|
      ensures ms[i].code != ms[j].code
    {
      assert l.metrics[i] in l.metrics && l.metrics[j] in l.metrics;
    }
  }

  predicate EveryPlanPriced(r: Rows) {
    forall p | p in r.plans :: Priced(r, p)
  }

  predicate Priced(r: Rows, p: Id) { exists id :: id in r.prices && r.prices[id].plan == p }

  lemma PlansAmongContent(r: Rows, l: Listing, c: Content)
    requires Lists(l, r) && ContentOf(r, l) == c
    ensures forall p | p in r.plans :: PlanIn(r, l, p) in c.plans
    ensures forall q | q in c.plans :: exists p :: p in r.plans && q == PlanIn(r, l, p)
  {
    forall p | p in r.plans
      ensures PlanIn(r, l, p) in c.plans
    {
      var i :| 0 <= i < |l.plans| && l.plans[i] == p;
      assert c.plans[i] in c.plans;
    }
    forall q | q in c.plans
      ensures exists p :: p in r.plans && q == PlanIn(r, l, p)
    {
      var i :| 0 <= i < |c.plans| && c.plans[i] == q;
      assert l.plans[i] in l.plans;
    }
  }

  lemma StoredPlansOk(r: Rows, l: Listing, requireComplete: bool)
    requires Lists(l, r) && VersionRowsOk(r)
    ensures var c := ContentOf(r, l);
            && (forall i, j | 0 <= i < j < |c.plans| :: c.plans[i].code != c.plans[j].code)
            && ((forall p | p in c.plans :: PlanOk(p, Codes(c.metrics), requireComplete)) <==>
                (requireComplete ==> EveryPlanPriced(r)))
  {
    var c := ContentOf(r, l);
    forall i, j | 0 <= i < j < |c.plans|
      ensures c.plans[i].code != c.plans[j].code
    {
      assert l.plans[i] in l.plans && l.plans[j] in l.plans;
    }
    forall p | p in r.plans
      ensures PlanOk(PlanIn(r, l, p), Codes(c.metrics), requireComplete) <==> (requireComplete ==> Priced(r, p))
    {
      StoredPlanOk(r, l, p, requireComplete);
    }
    PlansAmongContent(r, l, c);
  }

  lemma VersionOfStore(db: Tables, v: Id)
    requires RowsOk(db) && KeysUnique(db)
    ensures VersionRowsOk(RowsOf(db, v))
  {
    var r := RowsOf(db, v);
    forall id | id in r.prices
      ensures VersionPriceOk(r, r.prices[id])
    {
      assert PriceFits(db, db.prices[id]);
    }
    forall id | id in r.metrics
      ensures MetricOk(r.metrics[id].code, r.metrics[id].aggregation)
    {
      assert MetricFits(db, db.metrics[id]);
    }
    forall id | id in r.plans
      ensures PlanHeadOk(r.plans[id].code, r.plans[id].interval, r.plans[id].currency)
    {
      assert PlanFits(db, db.plans[id]);
    }
    forall id | id in r.grants
      ensures EntitlementOk(r.grants[id].key, r.grants[id].valueType, r.grants[id].value)
    {
      assert GrantFits(db, db.grants[id]);
    }
  }

  lemma CompletenessOfStore(db: Tables, v: Id)
    requires RowsOk(db)
    ensures VersionComplete(RowsOf(db, v)) <==> Complete(db, v)
  {
    var r := RowsOf(db, v);
    forall p | p in r.plans
      ensures Priced(r, p) <==> PricesUnder(db.prices, p) != map[]
    {
      PricedInStore(db, v, p);
    }
  }

  lemma PricedInStore(db: Tables, v: Id, p: Id)
    requires RowsOk(db) && p in PlansAt(db.plans, v)
    ensures Priced(RowsOf(db, v), p) <==> PricesUnder(db.prices, p) != map[]
  {
    var r := RowsOf(db, v);
    if id :| id in PricesUnder(db.prices, p) {
      assert PriceFits(db, db.prices[id]);
      assert id in r.prices;
    }
    if id :| id in r.prices && r.prices[id].plan == p {
      assert id in PricesUnder(db.prices, p);
    }
  }

  /**
   * In every reachable store: each version's content passes structural validation, and each version
   * that was ever validated passes the publish-time rules, however its rows are listed.
   */
  lemma EveryVersionValid(db: Tables, v: Id, c: Content)
    requires Invariant(db) && v < |db.versions| && ReadsAs(RowsOf(db, v), c)
    ensures CatalogOk(c, false)
    ensures db.versions[v] != Draft ==> CatalogOk(c, true)
  {
    var l :| Lists(l, RowsOf(db, v)) && ContentOf(RowsOf(db, v), l) == c;
    VersionOfStore(db, v);
    CompletenessOfStore(db, v);
    StoredContentOk(RowsOf(db, v), l);
  }

  // ---- copies ----

  /** How a copy's rows correspond to the original's. */
  datatype Copying = Copying(metrics: map<Id, Id>, plans: map<Id, Id>, prices: map<Id, Id>, grants: map<Id, Id>)

  predicate Bijection(f: map<Id, Id>, from: set<Id>, to: set<Id>) {
    && f.Keys == from && f.Values == to
    && forall i, j | i in f && j in f && i != j :: f[i] != f[j]
  }

  function Follow(f: map<Id, Id>, m: Option<Id>): Option<Id> {
    if m.Some? && m.value in f then Some(f[m.value]) else m
  }

  /** Every reference within the copy goes to the copy of what the original refers to. */
  ghost predicate IsCopy(a: Rows, b: Rows, f: Copying) {
    && Bijection(f.metrics, a.metrics.Keys, b.metrics.Keys)
    && Bijection(f.plans, a.plans.Keys, b.plans.Keys)
    && Bijection(f.prices, a.prices.Keys, b.prices.Keys)
    && Bijection(f.grants, a.grants.Keys, b.grants.Keys)
    && (forall m | m in a.metrics :: MetricIn(b.metrics[f.metrics[m]]) == MetricIn(a.metrics[m]))
    && (forall p | p in a.plans :: CopiedPlan(a.plans[p], b.plans[f.plans[p]]))
    && (forall r | r in a.prices :: CopiedPrice(f, a.prices[r], b.prices[f.prices[r]]))
    && (forall g | g in a.grants :: CopiedGrant(f, a.grants[g], b.grants[f.grants[g]]))
  }

  predicate CopiedPlan(p: PlanRow, q: PlanRow) {
    q == p.(version := q.version)
  }

  predicate CopiedPrice(f: Copying, p: PriceRow, q: PriceRow) {
    && p.plan in f.plans && q.plan == f.plans[p.plan]
    && (p.metric.Some? ==> p.metric.value in f.metrics)
    && q.metric == Follow(f.metrics, p.metric)
    && q.chargeModel == p.chargeModel && q.properties == p.properties
  }

  predicate CopiedGrant(f: Copying, g: GrantRow, h: GrantRow) {
    && g.plan in f.plans && h.plan == f.plans[g.plan]
    && GrantIn(h) == GrantIn(g)
  }

  function Image(f: map<Id, Id>, ids: seq<Id>): seq<Id>
    requires forall id | id in ids :: id in f
  {
    seq(|ids|, i requires 0 <= i < |ids| => f[ids[i]])
  }

  lemma ImageEnumerates(f: map<Id, Id>, ids: seq<Id>, from: set<Id>, to: set<Id>)
    requires Bijection(f, from, to) && Enumerates(ids, from)
    ensures Enumerates(Image(f, ids), to)
  {
    var image := Image(f, ids);
    forall id | id in to
      ensures id in image
    {
      var k :| k in f && f[k] == id;
      var i :| 0 <= i < |ids| && ids[i] == k;
      assert image[i] == id;
    }
    forall id | id in image
      ensures id in to
    {
      var i :| 0 <= i < |image| && image[i] == id;
    }
  }

  lemma CopiedPriceIn(a: Rows, b: Rows, f: Copying, r: Id)
    requires IsCopy(a, b, f) && r in a.prices
    ensures f.prices[r] in b.prices && PriceIn(b.metrics, b.prices[f.prices[r]]) == PriceIn(a.metrics, a.prices[r])
  {
    var x := a.prices[r];
    assert CopiedPrice(f, x, b.prices[f.prices[r]]);
    if x.metric.Some? {
      assert MetricIn(b.metrics[f.metrics[x.metric.value]]) == MetricIn(a.metrics[x.metric.value]);
      assert f.metrics[x.metric.value] in f.metrics.Values;
    }
  }

  lemma ImageWithin(f: map<Id, Id>, ids: seq<Id>, from: set<Id>, to: set<Id>)
    requires Bijection(f, from, to) && forall id | id in ids :: id in from
    ensures forall id | id in Image(f, ids) :: id in to
  {
    var image := Image(f, ids);
    forall id | id in image
      ensures id in to
    {
      var i :| 0 <= i < |image| && image[i] == id;
      assert ids[i] in ids && f[ids[i]] in f.Values;
    }
  }

  /** Listed rows correspond: under plan `q` in `b` exactly those under `p` in `a`, reading the same. */
  predicate PricesMatch(a: Rows, b: Rows, f: map<Id, Id>, ids: seq<Id>, p: Id, q: Id) {
    forall id | id in ids :: id in a.prices && id in f && f[id] in b.prices
                             && (b.prices[f[id]].plan == q <==> a.prices[id].plan == p)
                             && PriceIn(b.metrics, b.prices[f[id]]) == PriceIn(a.metrics, a.prices[id])
  }

  predicate GrantsMatch(a: Rows, b: Rows, f: map<Id, Id>, ids: seq<Id>, p: Id, q: Id) {
    forall id | id in ids :: id in a.grants && id in f && f[id] in b.grants
                             && (b.grants[f[id]].plan == q <==> a.grants[id].plan == p)
                             && GrantIn(b.grants[f[id]]) == GrantIn(a.grants[id])
  }

  lemma {:induction false} MatchingPricesFor(a: Rows, b: Rows, f: map<Id, Id>, ids: seq<Id>, p: Id, q: Id)
    requires PricesMatch(a, b, f, ids, p, q) && forall id | id in Image(f, ids) :: id in b.prices
    ensures PricesFor(b, Image(f, ids), q) == PricesFor(a, ids, p)
  {
    if ids != [] {
      var init, last := ids[..|ids| - 1], ids[|ids| - 1];
      assert Image(f, ids) == Image(f, init) + [f[last]];
      MatchingPricesFor(a, b, f, init, p, q);
    }
  }

  lemma {:induction false} MatchingGrantsFor(a: Rows, b: Rows, f: map<Id, Id>, ids: seq<Id>, p: Id, q: Id)
    requires GrantsMatch(a, b, f, ids, p, q) && forall id | id in Image(f, ids) :: id in b.grants
    ensures GrantsFor(b, Image(f, ids), q) == GrantsFor(a, ids, p)
  {
    if ids != [] {
      var init, last := ids[..|ids| - 1], ids[|ids| - 1];
      assert Image(f, ids) == Image(f, init) + [f[last]];
      MatchingGrantsFor(a, b, f, init, p, q);
    }
  }

  lemma CopiedPricesFor(a: Rows, b: Rows, f: Copying, ids: seq<Id>, p: Id)
    requires IsCopy(a, b, f) && p in a.plans && forall id | id in ids :: id in a.prices
    ensures forall id | id in Image(f.prices, ids) :: id in b.prices
    ensures PricesFor(b, Image(f.prices, ids), f.plans[p]) == PricesFor(a, ids, p)
  {
    ImageWithin(f.prices, ids, a.prices.Keys, b.prices.Keys);
    forall id | id in ids
      ensures PricesMatch(a, b, f.prices, [id], p, f.plans[p])
    {
      CopiedPriceIn(a, b, f, id);
      assert CopiedPrice(f, a.prices[id], b.prices[f.prices[id]]);
    }
    assert forall id | id in ids :: id in [id];
    MatchingPricesFor(a, b, f.prices, ids, p, f.plans[p]);
  }

  lemma CopiedGrantUnder(a: Rows, b: Rows, f: Copying, g: Id, p: Id)
    requires IsCopy(a, b, f) && g in a.grants && p in a.plans
    ensures GrantsMatch(a, b, f.grants, [g], p, f.plans[p])
  {
    assert CopiedGrant(f, a.grants[g], b.grants[f.grants[g]]);
    assert f.grants[g] in f.grants.Values;
  }

  lemma CopiedGrantsFor(a: Rows, b: Rows, f: Copying, ids: seq<Id>, p: Id)
    requires IsCopy(a, b, f) && p in a.plans && forall id | id in ids :: id in a.grants
    ensures forall id | id in Image(f.grants, ids) :: id in b.grants
    ensures GrantsFor(b, Image(f.grants, ids), f.plans[p]) == GrantsFor(a, ids, p)
  {
    ImageWithin(f.grants, ids, a.grants.Keys, b.grants.Keys);
    forall id | id in ids
      ensures GrantsMatch(a, b, f.grants, [id], p, f.plans[p])
    {
      CopiedGrantUnder(a, b, f, id, p);
    }
    assert forall id | id in ids :: id in [id];
    MatchingGrantsFor(a, b, f.grants, ids, p, f.plans[p]);
  }

  /** Listed correspondingly, a copy reads back as the original does. */
  lemma CopyReadsAlike(a: Rows, b: Rows, f: Copying, l: Listing) returns (k: Listing)
    requires IsCopy(a, b, f) && Lists(l, a)
    ensures Lists(k, b) && ContentOf(b, k) == ContentOf(a, l)
  {
    k := Listing(Image(f.metrics, l.metrics), Image(f.plans, l.plans),
                 Image(f.prices, l.prices), Image(f.grants, l.grants));
    ImageEnumerates(f.metrics, l.metrics, a.metrics.Keys, b.metrics.Keys);
    ImageEnumerates(f.plans, l.plans, a.plans.Keys, b.plans.Keys);
    ImageEnumerates(f.prices, l.prices, a.prices.Keys, b.prices.Keys);
    ImageEnumerates(f.grants, l.grants, a.grants.Keys, b.grants.Keys);
    forall i | 0 <= i < |l.plans|
      ensures PlanIn(b, k, k.plans[i]) == PlanIn(a, l, l.plans[i])
    {
      var p := l.plans[i];
      assert p in l.plans;
      CopiedPricesFor(a, b, f, l.prices, p);
      CopiedGrantsFor(a, b, f, l.grants, p);
      assert CopiedPlan(a.plans[p], b.plans[f.plans[p]]);
    }
    forall i | 0 <= i < |l.metrics|
      ensures MetricIn(b.metrics[k.metrics[i]]) == MetricIn(a.metrics[l.metrics[i]])
    {
      assert l.metrics[i] in l.metrics;
    }
    assert ContentOf(b, k).metrics == ContentOf(a, l).metrics;
    assert ContentOf(b, k).plans == ContentOf(a, l).plans;
  }

  function Inverse(f: map<Id, Id>): map<Id, Id>
    requires forall i, j | i in f && j in f && i != j :: f[i] != f[j]
  {
    map y | y in f.Values :: Preimage(f, y)
  }

  function Preimage(f: map<Id, Id>, y: Id): (x: Id)
    requires y in f.Values && forall i, j | i in f && j in f && i != j :: f[i] != f[j]
    ensures x in f && f[x] == y
  {
    var x :| x in f && f[x] == y;
    x
  }

  lemma InverseBijection(f: map<Id, Id>, from: set<Id>, to: set<Id>)
    requires Bijection(f, from, to)
    ensures Bijection(Inverse(f), to, from) && Reverses(f, Inverse(f))
  {
    var g := Inverse(f);
    forall x | x in f
      ensures f[x] in g && g[f[x]] == x
    {
      assert f[x] in f.Values;
    }
    assert g.Values == from by {
      forall x | x in from
        ensures x in g.Values
      {
        assert g[f[x]] == x;
      }
    }
  }

  /** `g` goes back where `f` came from, table by table. */
  predicate Reverses(f: map<Id, Id>, g: map<Id, Id>) {
    && (forall x | x in f :: f[x] in g && g[f[x]] == x)
    && (forall y | y in g :: g[y] in f && f[g[y]] == y)
  }

  lemma ReversedPrice(f: Copying, g: Copying, p: PriceRow, q: PriceRow)
    requires CopiedPrice(f, p, q) && Reverses(f.metrics, g.metrics) && Reverses(f.plans, g.plans)
    ensures CopiedPrice(g, q, p)
  {
  }

  function Backward(f: Copying, a: Rows, b: Rows): (g: Copying)
    requires IsCopy(a, b, f)
  {
    Copying(Inverse(f.metrics), Inverse(f.plans), Inverse(f.prices), Inverse(f.grants))
  }

  lemma BackwardTables(a: Rows, b: Rows, f: Copying)
    requires IsCopy(a, b, f)
    ensures var g := Backward(f, a, b);
            && Bijection(g.metrics, b.metrics.Keys, a.metrics.Keys) && Reverses(f.metrics, g.metrics)
            && Bijection(g.plans, b.plans.Keys, a.plans.Keys) && Reverses(f.plans, g.plans)
            && Bijection(g.prices, b.prices.Keys, a.prices.Keys) && Reverses(f.prices, g.prices)
            && Bijection(g.grants, b.grants.Keys, a.grants.Keys) && Reverses(f.grants, g.grants)
  {
    InverseBijection(f.metrics, a.metrics.Keys, b.metrics.Keys);
    InverseBijection(f.plans, a.plans.Keys, b.plans.Keys);
    InverseBijection(f.prices, a.prices.Keys, b.prices.Keys);
    InverseBijection(f.grants, a.grants.Keys, b.grants.Keys);
  }

  lemma BackwardPrice(a: Rows, b: Rows, f: Copying, r: Id)
    requires IsCopy(a, b, f) && r in b.prices
    ensures var g := Backward(f, a, b);
            r in g.prices && g.prices[r] in a.prices && CopiedPrice(g, b.prices[r], a.prices[g.prices[r]])
  {
    BackwardTables(a, b, f);
    var g := Backward(f, a, b);
    var x := g.prices[r];
    assert x in a.prices && f.prices[x] == r;
    ReversedPrice(f, g, a.prices[x], b.prices[r]);
  }

  lemma BackwardGrant(a: Rows, b: Rows, f: Copying, r: Id)
    requires IsCopy(a, b, f) && r in b.grants
    ensures var g := Backward(f, a, b);
            r in g.grants && g.grants[r] in a.grants && CopiedGrant(g, b.grants[r], a.grants[g.grants[r]])
  {
    BackwardTables(a, b, f);
    var g := Backward(f, a, b);
    var x := g.grants[r];
    assert x in a.grants && f.grants[x] == r;
    assert CopiedGrant(f, a.grants[x], b.grants[r]);
  }

  /** The original is a copy of its copy. */
  lemma CopyOfCopy(a: Rows, b: Rows, f: Copying) returns (g: Copying)
    requires IsCopy(a, b, f)
    ensures IsCopy(b, a, g)
  {
    g := Backward(f, a, b);
    BackwardTables(a, b, f);
    forall r | r in b.prices
      ensures CopiedPrice(g, b.prices[r], a.prices[g.prices[r]])
    {
      BackwardPrice(a, b, f, r);
    }
    forall r | r in b.grants
      ensures CopiedGrant(g, b.grants[r], a.grants[g.grants[r]])
    {
      BackwardGrant(a, b, f, r);
    }
    forall m | m in b.metrics
      ensures MetricIn(a.metrics[g.metrics[m]]) == MetricIn(b.metrics[m])
    {
      assert MetricIn(b.metrics[f.metrics[g.metrics[m]]]) == MetricIn(a.metrics[g.metrics[m]]);
    }
    forall p | p in b.plans
      ensures CopiedPlan(b.plans[p], a.plans[g.plans[p]])
    {
      assert CopiedPlan(a.plans[g.plans[p]], b.plans[f.plans[g.plans[p]]]);
    }
  }

  lemma CopyReadsToo(a: Rows, b: Rows, f: Copying, c: Content)
    requires IsCopy(a, b, f) && ReadsAs(a, c)
    ensures ReadsAs(b, c)
  {
    var l :| Lists(l, a) && ContentOf(a, l) == c;
    var k := CopyReadsAlike(a, b, f, l);
  }

  /** A copy reads back as exactly the contents its original reads back as. */
  lemma CopySameContent(a: Rows, b: Rows, f: Copying, c: Content)
    requires IsCopy(a, b, f)
    ensures ReadsAs(a, c) <==> ReadsAs(b, c)
  {
    if ReadsAs(a, c) {
      CopyReadsToo(a, b, f, c);
    }
    var g := CopyOfCopy(a, b, f);
    if ReadsAs(b, c) {
      CopyReadsToo(b, a, g, c);
    }
  }
}
