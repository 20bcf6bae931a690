/**
 * The catalogue tables of one tenant, their integrity constraints, and what every change of a draft
 * keeps.  A version's id is its position; its version number is one more.  The first half says what
 * every reachable store satisfies and what no change may touch, and draws the consequences for
 * subscriptions; the second half shows that each accepted row change keeps all of it.
 */
module CatalogStore {
  import opened Prelude
  import opened CatalogContent
  import opened TierValidation

  type Id = nat

  datatype MetricRow = MetricRow(
    version: Id, code: string, name: string, aggregation: Aggregation, fieldName: Option<string>, billable: bool)

  datatype PlanRow = PlanRow(version: Id, code: string, name: string, interval: Interval, currency: string)

  datatype PriceRow = PriceRow(
    plan: Id, version: Id, metric: Option<Id>, chargeModel: ChargeModel, properties: Properties)

  datatype GrantRow = GrantRow(plan: Id, version: Id, key: string, valueType: ValueType, value: string)

  datatype Subscription = Subscription(externalId: string, customer: string, version: Id, plan: Id, active: bool)

  datatype Tables = Tables(
    versions: seq<CatalogState>,
    metrics: map<Id, MetricRow>,
    plans: map<Id, PlanRow>,
    prices: map<Id, PriceRow>,
    grants: map<Id, GrantRow>,
    subscriptions: map<Id, Subscription>,
    nextId: Id)

  // ---- queries ----

  predicate IsDraft(db: Tables, v: Id) { v < |db.versions| && db.versions[v] == Draft }

  function MetricsAt(t: map<Id, MetricRow>, v: Id): map<Id, MetricRow> {
    map id | id in t && t[id].version == v :: t[id]
  }

  function PlansAt(t: map<Id, PlanRow>, v: Id): map<Id, PlanRow> {
    map id | id in t && t[id].version == v :: t[id]
  }

  function PricesAt(t: map<Id, PriceRow>, v: Id): map<Id, PriceRow> {
    map id | id in t && t[id].version == v :: t[id]
  }

  function GrantsAt(t: map<Id, GrantRow>, v: Id): map<Id, GrantRow> {
    map id | id in t && t[id].version == v :: t[id]
  }

  function PricesUnder(t: map<Id, PriceRow>, p: Id): map<Id, PriceRow> {
    map id | id in t && t[id].plan == p :: t[id]
  }

  function GrantsUnder(t: map<Id, GrantRow>, p: Id): map<Id, GrantRow> {
    map id | id in t && t[id].plan == p :: t[id]
  }

  // ---- what every reachable store satisfies ----

  predicate MetricFits(db: Tables, m: MetricRow) {
    m.version < |db.versions| && MetricOk(m.code, m.aggregation)
  }

  predicate PlanFits(db: Tables, p: PlanRow) {
    p.version < |db.versions| && PlanHeadOk(p.code, p.interval, p.currency)
  }

  /** A price belongs to a plan of its version, refers only to metrics of its version, and is valid. */
  predicate PriceFits(db: Tables, r: PriceRow) {
    && r.plan in db.plans && db.plans[r.plan].version == r.version
    && (r.metric.Some? ==> r.metric.value in db.metrics && db.metrics[r.metric.value].version == r.version)
    && PriceOk(db.plans[r.plan].currency, r.chargeModel, r.properties, r.metric.Some?)
  }

  predicate GrantFits(db: Tables, g: GrantRow) {
    && g.plan in db.plans && db.plans[g.plan].version == g.version
    && EntitlementOk(g.key, g.valueType, g.value)
  }

  predicate RowsOk(db: Tables) {
    && (forall id | id in db.metrics :: id < db.nextId && MetricFits(db, db.metrics[id]))
    && (forall id | id in db.plans :: id < db.nextId && PlanFits(db, db.plans[id]))
    && (forall id | id in db.prices :: id < db.nextId && PriceFits(db, db.prices[id]))
    && (forall id | id in db.grants :: id < db.nextId && GrantFits(db, db.grants[id]))
  }

  /** The unique constraints: codes within a version, keys within a plan. */
  predicate KeysUnique(db: Tables) {
    MetricCodesUnique(db.metrics) && PlanCodesUnique(db.plans) && GrantKeysUnique(db.grants)
  }

  predicate MetricCodesUnique(t: map<Id, MetricRow>) {
    forall i, j | i in t && j in t && i != j :: !(t[i].version == t[j].version && t[i].code == t[j].code)
  }

  predicate PlanCodesUnique(t: map<Id, PlanRow>) {
    forall i, j | i in t && j in t && i != j :: !(t[i].version == t[j].version && t[i].code == t[j].code)
  }

  predicate GrantKeysUnique(t: map<Id, GrantRow>) {
    forall i, j | i in t && j in t && i != j :: !(t[i].plan == t[j].plan && t[i].key == t[j].key)
  }

  /** The version has a plan, and each of its plans has a price. */
  predicate Complete(db: Tables, v: Id) {
    && PlansAt(db.plans, v) != map[]
    && forall p | p in PlansAt(db.plans, v) :: PricesUnder(db.prices, p) != map[]
  }

  /** A subscription is pinned to a plan of a version that has been published. */
  predicate SubscriptionOk(db: Tables, s: Id)
    requires s in db.subscriptions
  {
    var sub := db.subscriptions[s];
    && s < db.nextId
    && sub.version < |db.versions| && Rank(db.versions[sub.version]) >= Rank(Published)
    && sub.plan in db.plans && db.plans[sub.plan].version == sub.version
  }

  predicate Invariant(db: Tables) {
    && RowsOk(db)
    && KeysUnique(db)
    && (forall v | 0 <= v < |db.versions| && db.versions[v] != Draft :: Complete(db, v))
    && (forall s | s in db.subscriptions :: SubscriptionOk(db, s))
  }

  /** What that means for the prices: each is one its plan can charge. */
  lemma PricesChargeable(db: Tables, id: Id)
    requires Invariant(db) && id in db.prices
    ensures var r := db.prices[id];
            && r.plan in db.plans && r.properties.Json?
            && match r.chargeModel
               case Fixed =>
                 && r.properties.fixed.Some? && r.properties.fixed.value.currency == db.plans[r.plan].currency
                 && r.properties.fixed.value.amountCents.Some? && r.properties.fixed.value.amountCents.value >= 0
               case PerUnit =>
                 && r.metric.Some? && r.metric.value in db.metrics && r.properties.perUnit.Some?
                 && r.properties.perUnit.value.unitAmountCents.Some?
                 && r.properties.perUnit.value.unitAmountCents.value >= 0
               case Tiered =>
                 && r.metric.Some? && r.metric.value in db.metrics && r.properties.tiered.Some?
                 && PartitionsNaturals(r.properties.tiered.value)
               case OtherModel(_) => false
  {
    assert PriceFits(db, db.prices[id]);
    if db.prices[id].chargeModel.Tiered? {
      ValidIffPartition(db.prices[id].properties.tiered.value);
    }
  }

  const EMPTY := Tables([], map[], map[], map[], map[], map[], 0)

  // ---- what no change of the store may touch ----

  /** All rows of one version. */
  datatype Rows = Rows(
    metrics: map<Id, MetricRow>, plans: map<Id, PlanRow>, prices: map<Id, PriceRow>, grants: map<Id, GrantRow>)

  function RowsOf(db: Tables, v: Id): Rows {
    Rows(MetricsAt(db.metrics, v), PlansAt(db.plans, v), PricesAt(db.prices, v), GrantsAt(db.grants, v))
  }

  /** From `a` to `b`: only drafts changed, states moved forward, and subscriptions kept their pins. */
  ghost predicate Evolves(a: Tables, b: Tables) {
    && |a.versions| <= |b.versions| && a.nextId <= b.nextId
    && (forall v | 0 <= v < |a.versions| :: Rank(a.versions[v]) <= Rank(b.versions[v]))
    && (forall v | 0 <= v < |a.versions| && a.versions[v] != Draft :: RowsOf(b, v) == RowsOf(a, v))
    && (forall s | s in a.subscriptions :: s in b.subscriptions && SamePins(a.subscriptions[s], b.subscriptions[s]))
  }

  predicate SamePins(s: Subscription, t: Subscription) {
    s == t || t == s.(active := false)
  }

  lemma EvolvesTransitive(a: Tables, b: Tables, c: Tables)
    requires Evolves(a, b) && Evolves(b, c)
    ensures Evolves(a, c)
  {
    forall v | 0 <= v < |a.versions|
      ensures Rank(a.versions[v]) <= Rank(c.versions[v])
      ensures a.versions[v] != Draft ==> RowsOf(c, v) == RowsOf(a, v)
    {
      assert Rank(a.versions[v]) <= Rank(b.versions[v]) <= Rank(c.versions[v]);
      assert b.versions[v] != Draft ==> RowsOf(c, v) == RowsOf(b, v);
    }
  }

  /** All that a subscriber of plan `p` depends on. */
  datatype Offer = Offer(plan: PlanRow, prices: map<Id, PriceRow>, grants: map<Id, GrantRow>)

  function OfferOf(db: Tables, p: Id): Offer
    requires p in db.plans
  {
    Offer(db.plans[p], PricesUnder(db.prices, p), GrantsUnder(db.grants, p))
  }

  /** A plan's prices are found among the rows of its version. */
  lemma OfferWithinVersion(db: Tables, p: Id)
    requires RowsOk(db) && p in db.plans
    ensures var rows := RowsOf(db, db.plans[p].version);
            && p in rows.plans
            && OfferOf(db, p) == Offer(rows.plans[p], PricesUnder(rows.prices, p), GrantsUnder(rows.grants, p))
  {
    var rows := RowsOf(db, db.plans[p].version);
    assert PricesUnder(db.prices, p) == PricesUnder(rows.prices, p);
    assert GrantsUnder(db.grants, p) == GrantsUnder(rows.grants, p);
  }

  lemma OfferFollowsRows(a: Tables, b: Tables, p: Id)
    requires RowsOk(a) && RowsOk(b) && p in a.plans
    requires RowsOf(b, a.plans[p].version) == RowsOf(a, a.plans[p].version)
    ensures p in b.plans && OfferOf(a, p) == OfferOf(b, p)
  {
    OfferWithinVersion(a, p);
    assert p in PlansAt(b.plans, a.plans[p].version);
    OfferWithinVersion(b, p);
  }

  /** The pinned plan of a subscription keeps its rows while the catalogue evolves. */
  lemma PinnedRowsStay(a: Tables, b: Tables, s: Id)
    requires RowsOk(a) && RowsOk(b) && Evolves(a, b)
    requires s in a.subscriptions && SubscriptionOk(a, s)
    ensures s in b.subscriptions && b.subscriptions[s].plan == a.subscriptions[s].plan
    ensures var p := a.subscriptions[s].plan;
            p in a.plans && p in b.plans && OfferOf(a, p) == OfferOf(b, p)
  {
    OfferFollowsRows(a, b, a.subscriptions[s].plan);
  }

  /**
   * What a subscription was pinned to stays put: over a whole run of the service, whatever operations
   * it consists of, its plan row, that plan's prices and that plan's grants are the very same rows.
   */
  lemma PinnedForever(run: seq<Tables>, i: nat, j: nat, s: Id)
    requires forall k | 0 <= k < |run| :: Invariant(run[k])
    requires forall k | 0 <= k < |run| - 1 :: Evolves(run[k], run[k + 1])
    requires i <= j < |run| && s in run[i].subscriptions
    ensures s in run[j].subscriptions && run[j].subscriptions[s].plan == run[i].subscriptions[s].plan
    ensures var p := run[i].subscriptions[s].plan;
            p in run[i].plans && p in run[j].plans && OfferOf(run[i], p) == OfferOf(run[j], p)
  {
    RunEvolves(run, i, j);
    PinnedRowsStay(run[i], run[j], s);
  }

  lemma {:induction false} RunEvolves(run: seq<Tables>, i: nat, j: nat)
    requires forall k | 0 <= k < |run| - 1 :: Evolves(run[k], run[k + 1])
    requires i <= j < |run|
    ensures Evolves(run[i], run[j])
  {
    if i < j {
      RunEvolves(run, i, j - 1);
      assert Evolves(run[j - 1], run[j - 1 + 1]);
      EvolvesTransitive(run[i], run[j - 1], run[j]);
    }
  }

  // ---- row changes, with the constraints and the draft trigger of the database ----

  predicate AcceptsMetric(db: Tables, m: MetricRow) {
    && IsDraft(db, m.version) && ValidAggregationType(m.aggregation)
    && forall id | id in db.metrics :: !(db.metrics[id].version == m.version && db.metrics[id].code == m.code)
  }

  predicate AcceptsPlan(db: Tables, p: PlanRow) {
    && IsDraft(db, p.version) && ValidInterval(p.interval) && |p.currency| == 3
    && forall id | id in db.plans :: !(db.plans[id].version == p.version && db.plans[id].code == p.code)
  }

  /** The foreign keys and the trigger, which looks the version up through the plan. */
  predicate AcceptsPrice(db: Tables, r: PriceRow) {
    && r.plan in db.plans && IsDraft(db, db.plans[r.plan].version)
    && (r.metric.Some? ==> r.metric.value in db.metrics)
    && ValidChargeModel(r.chargeModel)
  }

  predicate AcceptsGrant(db: Tables, g: GrantRow) {
    && g.plan in db.plans && IsDraft(db, db.plans[g.plan].version) && ValidValueType(g.valueType)
    && forall id | id in db.grants :: !(db.grants[id].plan == g.plan && db.grants[id].key == g.key)
  }

  function InsertMetric(db: Tables, m: MetricRow): Tables
    requires AcceptsMetric(db, m)
  {
    db.(metrics := db.metrics[db.nextId := m], nextId := db.nextId + 1)
  }

  function InsertPlan(db: Tables, p: PlanRow): Tables
    requires AcceptsPlan(db, p)
  {
    db.(plans := db.plans[db.nextId := p], nextId := db.nextId + 1)
  }

  function InsertPrice(db: Tables, r: PriceRow): Tables
    requires AcceptsPrice(db, r)
  {
    db.(prices := db.prices[db.nextId := r], nextId := db.nextId + 1)
  }

  function InsertGrant(db: Tables, g: GrantRow): Tables
    requires AcceptsGrant(db, g)
  {
    db.(grants := db.grants[db.nextId := g], nextId := db.nextId + 1)
  }

  /** Rows may be deleted from drafts only, and only when nothing refers to them. */
  predicate CanDeletePlans(db: Tables, ids: set<Id>) {
    && (forall id | id in ids :: id in db.plans && IsDraft(db, db.plans[id].version))
    && (forall r | r in db.prices :: db.prices[r].plan !in ids)
    && (forall g | g in db.grants :: db.grants[g].plan !in ids)
    && (forall s | s in db.subscriptions :: db.subscriptions[s].plan !in ids)
  }

  predicate CanDeleteMetrics(db: Tables, ids: set<Id>) {
    && (forall id | id in ids :: id in db.metrics && IsDraft(db, db.metrics[id].version))
    && (forall r | r in db.prices :: db.prices[r].metric.Some? ==> db.prices[r].metric.value !in ids)
  }

  predicate CanDeletePrices(db: Tables, ids: set<Id>) {
    forall id | id in ids :: id in db.prices && db.prices[id].plan in db.plans
                             && IsDraft(db, db.plans[db.prices[id].plan].version)
  }

  predicate CanDeleteGrants(db: Tables, ids: set<Id>) {
    forall id | id in ids :: id in db.grants && db.grants[id].plan in db.plans
                             && IsDraft(db, db.plans[db.grants[id].plan].version)
  }

  function DeletePlans(db: Tables, ids: set<Id>): Tables
    requires CanDeletePlans(db, ids)
  {
    db.(plans := db.plans - ids)
  }

  function DeleteMetrics(db: Tables, ids: set<Id>): Tables
    requires CanDeleteMetrics(db, ids)
  {
    db.(metrics := db.metrics - ids)
  }

  function DeletePrices(db: Tables, ids: set<Id>): Tables
    requires CanDeletePrices(db, ids)
  {
    db.(prices := db.prices - ids)
  }

  function DeleteGrants(db: Tables, ids: set<Id>): Tables
    requires CanDeleteGrants(db, ids)
  {
    db.(grants := db.grants - ids)
  }

  // ---- each change keeps the invariant and every non-draft version ----

  /** If a version's rows are the same and rows are in order, the version is as complete as before. */
  lemma CompleteStays(a: Tables, b: Tables, v: Id)
    requires RowsOk(a) && Complete(a, v) && RowsOf(b, v) == RowsOf(a, v)
    ensures Complete(b, v)
  {
    forall p | p in PlansAt(b.plans, v)
      ensures PricesUnder(b.prices, p) != map[]
    {
      assert p in PlansAt(a.plans, v);
      var id :| id in PricesUnder(a.prices, p);
      assert id in PricesAt(a.prices, v);
      assert id in PricesAt(b.prices, v);
      assert id in PricesUnder(b.prices, p);
    }
  }

  /** A change that leaves versions, subscriptions and all non-draft rows alone. */
  predicate TouchesOnlyDrafts(a: Tables, b: Tables) {
    && a.versions == b.versions && a.subscriptions == b.subscriptions && a.nextId <= b.nextId
    && forall v | 0 <= v < |a.versions| && a.versions[v] != Draft :: RowsOf(b, v) == RowsOf(a, v)
  }

  lemma SubscriptionStays(a: Tables, b: Tables, s: Id)
    requires TouchesOnlyDrafts(a, b) && s in a.subscriptions && SubscriptionOk(a, s)
    ensures SubscriptionOk(b, s)
  {
    var v := a.subscriptions[s].version;
    assert a.subscriptions[s].plan in PlansAt(a.plans, v);
    assert a.subscriptions[s].plan in PlansAt(b.plans, v);
  }

  lemma DraftChangeKeeps(a: Tables, b: Tables)
    requires Invariant(a) && TouchesOnlyDrafts(a, b) && RowsOk(b) && KeysUnique(b)
    ensures Invariant(b) && Evolves(a, b)
  {
    forall v | 0 <= v < |b.versions| && b.versions[v] != Draft
      ensures Complete(b, v)
    {
      CompleteStays(a, b, v);
    }
    forall s | s in b.subscriptions
      ensures SubscriptionOk(b, s)
    {
      SubscriptionStays(a, b, s);
    }
  }

  /** Rows stay in order while the rows they refer to stay. */
  lemma RowsStayOk(a: Tables, b: Tables)
    requires RowsOk(a) && b.versions == a.versions && a.nextId <= b.nextId
    requires forall id | id in a.plans :: id in b.plans && b.plans[id] == a.plans[id]
    requires forall id | id in a.metrics :: id in b.metrics && b.metrics[id] == a.metrics[id]
    ensures forall id | id in a.metrics :: id < b.nextId && MetricFits(b, a.metrics[id])
    ensures forall id | id in a.plans :: id < b.nextId && PlanFits(b, a.plans[id])
    ensures forall id | id in a.prices :: id < b.nextId && PriceFits(b, a.prices[id])
    ensures forall id | id in a.grants :: id < b.nextId && GrantFits(b, a.grants[id])
  {
  }

  lemma InsertPlanFrame(db: Tables, p: PlanRow)
    requires RowsOk(db) && AcceptsPlan(db, p)
    ensures db.nextId !in db.plans && TouchesOnlyDrafts(db, InsertPlan(db, p))
    ensures PricesUnder(db.prices, db.nextId) == map[] && GrantsUnder(db.grants, db.nextId) == map[]
  {
    var db' := InsertPlan(db, p);
    forall v | 0 <= v < |db.versions| && db.versions[v] != Draft
      ensures RowsOf(db', v) == RowsOf(db, v)
    {
      assert PlansAt(db'.plans, v) == PlansAt(db.plans, v);
    }
  }

  lemma InsertPlanFits(db: Tables, p: PlanRow)
    requires RowsOk(db) && AcceptsPlan(db, p) && p.code != "" && db.nextId !in db.plans
    ensures RowsOk(InsertPlan(db, p))
  {
    RowsStayOk(db, InsertPlan(db, p));
  }

  lemma InsertPlanKeeps(db: Tables, p: PlanRow)
    requires Invariant(db) && AcceptsPlan(db, p) && p.code != ""
    ensures Invariant(InsertPlan(db, p)) && Evolves(db, InsertPlan(db, p)) && db.nextId !in db.plans
    ensures PricesUnder(db.prices, db.nextId) == map[] && GrantsUnder(db.grants, db.nextId) == map[]
  {
    InsertPlanFrame(db, p);
    InsertPlanFits(db, p);
    DraftChangeKeeps(db, InsertPlan(db, p));
  }

  lemma InsertGrantFrame(db: Tables, g: GrantRow)
    requires RowsOk(db) && AcceptsGrant(db, g) && GrantFits(db, g)
    ensures db.nextId !in db.grants && TouchesOnlyDrafts(db, InsertGrant(db, g))
  {
    var db' := InsertGrant(db, g);
    forall v | 0 <= v < |db.versions| && db.versions[v] != Draft
      ensures RowsOf(db', v) == RowsOf(db, v)
    {
      assert GrantsAt(db'.grants, v) == GrantsAt(db.grants, v);
    }
  }

  lemma InsertGrantFits(db: Tables, g: GrantRow)
    requires RowsOk(db) && AcceptsGrant(db, g) && GrantFits(db, g)
    ensures RowsOk(InsertGrant(db, g))
  {
    RowsStayOk(db, InsertGrant(db, g));
  }

  lemma InsertGrantKeeps(db: Tables, g: GrantRow)
    requires Invariant(db) && AcceptsGrant(db, g) && GrantFits(db, g)
    ensures Invariant(InsertGrant(db, g)) && Evolves(db, InsertGrant(db, g)) && db.nextId !in db.grants
  {
    InsertGrantFrame(db, g);
    InsertGrantFits(db, g);
    DraftChangeKeeps(db, InsertGrant(db, g));
  }

  lemma DeletePricesFrame(db: Tables, ids: set<Id>)
    requires RowsOk(db) && CanDeletePrices(db, ids)
    ensures RowsOk(DeletePrices(db, ids)) && TouchesOnlyDrafts(db, DeletePrices(db, ids))
  {
    var db' := DeletePrices(db, ids);
    RowsStayOk(db, db');
    forall v | 0 <= v < |db.versions| && db.versions[v] != Draft
      ensures RowsOf(db', v) == RowsOf(db, v)
    {
      assert PricesAt(db'.prices, v) == PricesAt(db.prices, v);
    }
  }

  lemma DeletePricesKeeps(db: Tables, ids: set<Id>)
    requires Invariant(db) && CanDeletePrices(db, ids)
    ensures Invariant(DeletePrices(db, ids)) && Evolves(db, DeletePrices(db, ids))
  {
    DeletePricesFrame(db, ids);
    DraftChangeKeeps(db, DeletePrices(db, ids));
  }

  lemma DeleteGrantsFrame(db: Tables, ids: set<Id>)
    requires RowsOk(db) && CanDeleteGrants(db, ids)
    ensures RowsOk(DeleteGrants(db, ids)) && TouchesOnlyDrafts(db, DeleteGrants(db, ids))
  {
    var db' := DeleteGrants(db, ids);
    RowsStayOk(db, db');
    forall v | 0 <= v < |db.versions| && db.versions[v] != Draft
      ensures RowsOf(db', v) == RowsOf(db, v)
    {
      assert GrantsAt(db'.grants, v) == GrantsAt(db.grants, v);
    }
  }

  lemma DeleteGrantsKeeps(db: Tables, ids: set<Id>)
    requires Invariant(db) && CanDeleteGrants(db, ids)
    ensures Invariant(DeleteGrants(db, ids)) && Evolves(db, DeleteGrants(db, ids))
  {
    DeleteGrantsFrame(db, ids);
    DraftChangeKeeps(db, DeleteGrants(db, ids));
  }

  lemma DeletePlansFrame(db: Tables, ids: set<Id>)
    requires RowsOk(db) && CanDeletePlans(db, ids)
    ensures RowsOk(DeletePlans(db, ids)) && TouchesOnlyDrafts(db, DeletePlans(db, ids))
  {
    var db' := DeletePlans(db, ids);
    assert forall id | id in db.prices :: PriceFits(db, db.prices[id]) && PriceFits(db', db.prices[id]);
    assert forall id | id in db.grants :: GrantFits(db, db.grants[id]) && GrantFits(db', db.grants[id]);
    forall v | 0 <= v < |db.versions| && db.versions[v] != Draft
      ensures RowsOf(db', v) == RowsOf(db, v)
    {
      assert PlansAt(db'.plans, v) == PlansAt(db.plans, v);
    }
  }

  lemma DeletePlansKeeps(db: Tables, ids: set<Id>)
    requires Invariant(db) && CanDeletePlans(db, ids)
    ensures Invariant(DeletePlans(db, ids)) && Evolves(db, DeletePlans(db, ids))
  {
    DeletePlansFrame(db, ids);
    DraftChangeKeeps(db, DeletePlans(db, ids));
  }

  lemma DeleteMetricsFrame(db: Tables, ids: set<Id>)
    requires RowsOk(db) && CanDeleteMetrics(db, ids)
    ensures RowsOk(DeleteMetrics(db, ids)) && TouchesOnlyDrafts(db, DeleteMetrics(db, ids))
  {
    var db' := DeleteMetrics(db, ids);
    assert forall id | id in db.prices :: PriceFits(db, db.prices[id]) && PriceFits(db', db.prices[id]);
    forall v | 0 <= v < |db.versions| && db.versions[v] != Draft
      ensures RowsOf(db', v) == RowsOf(db, v)
    {
      assert MetricsAt(db'.metrics, v) == MetricsAt(db.metrics, v);
    }
  }

  lemma DeleteMetricsKeeps(db: Tables, ids: set<Id>)
    requires Invariant(db) && CanDeleteMetrics(db, ids)
    ensures Invariant(DeleteMetrics(db, ids)) && Evolves(db, DeleteMetrics(db, ids))
  {
    DeleteMetricsFrame(db, ids);
    DraftChangeKeeps(db, DeleteMetrics(db, ids));
  }
}
