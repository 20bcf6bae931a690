/**
 * Replacement of a draft's whole content, and what it reads back as.  The old rows are deleted children
 * first, then metrics and plans are inserted again with their prices and grants.  The round trip is
 * proved plan by plan: each plan reads back as it was given, later insertions leave it alone, and a
 * version reads back as a content as soon as its metrics and each of its plans do.
 */
module CatalogReplacing {
  import opened Prelude
  import opened CatalogContent
  import opened CatalogStore
  import opened CatalogReading
  import opened CatalogOrders
  import opened CatalogCloning
  import opened CatalogEditing

  // ---- a version reads back plan by plan ----

  lemma {:induction false} PricesForAppend(r: Rows, a: seq<Id>, b: seq<Id>, p: Id)
    requires (forall id | id in a :: id in r.prices) && (forall id | id in b :: id in r.prices)
    ensures PricesFor(r, a + b, p) == PricesFor(r, a, p) + PricesFor(r, b, p)
  {
    if b == [] {
      assert a + b == a;
    } else {
      PricesForAppend(r, a, b[..|b| - 1], p);
      assert (a + b)[..|a + b| - 1] == a + b[..|b| - 1];
    }
  }

  lemma {:induction false} GrantsForAppend(r: Rows, a: seq<Id>, b: seq<Id>, p: Id)
    requires (forall id | id in a :: id in r.grants) && (forall id | id in b :: id in r.grants)
    ensures GrantsFor(r, a + b, p) == GrantsFor(r, a, p) + GrantsFor(r, b, p)
  {
    if b == [] {
      assert a + b == a;
    } else {
      GrantsForAppend(r, a, b[..|b| - 1], p);
      assert (a + b)[..|a + b| - 1] == a + b[..|b| - 1];
    }
  }

  /** Of rows that all belong to plan `p`, plan `p` gets all and any other plan none. */
  lemma {:induction false} PricesForOne(r: Rows, p: Id, ids: seq<Id>, prices: seq<PriceInput>, q: Id)
    requires |ids| == |prices| && forall i | 0 <= i < |ids| ::
               ids[i] in r.prices && r.prices[ids[i]].plan == p && PriceIn(r.metrics, r.prices[ids[i]]) == prices[i]
    ensures PricesFor(r, ids, q) == if q == p then prices else []
  {
    if ids != [] {
      var n := |ids| - 1;
      PricesForOne(r, p, ids[..n], prices[..n], q);
      assert PricesFor(r, ids, q) == PricesFor(r, ids[..n], q) + if q == p then [prices[n]] else [];
      assert prices == prices[..n] + [prices[n]];
    }
  }

  lemma {:induction false} GrantsForOne(r: Rows, p: Id, ids: seq<Id>, es: seq<EntitlementInput>, q: Id)
    requires |ids| == |es| && forall i | 0 <= i < |ids| ::
               ids[i] in r.grants && r.grants[ids[i]].plan == p && GrantIn(r.grants[ids[i]]) == es[i]
    ensures GrantsFor(r, ids, q) == if q == p then es else []
  {
    if ids != [] {
      var n := |ids| - 1;
      GrantsForOne(r, p, ids[..n], es[..n], q);
      assert GrantsFor(r, ids, q) == GrantsFor(r, ids[..n], q) + if q == p then [es[n]] else [];
      assert es == es[..n] + [es[n]];
    }
  }

  lemma PricesForListed(db: Tables, v: Id, p: Id, ids: seq<Id>, prices: seq<PriceInput>)
    requires RowsOk(db) && p in PlansAt(db.plans, v) && PricesListed(db, p, ids, prices)
    ensures forall id | id in ids :: id in PricesAt(db.prices, v)
    ensures forall q :: PricesFor(RowsOf(db, v), ids, q) == if q == p then prices else []
  {
    var r := RowsOf(db, v);
    forall i | 0 <= i < |ids|
      ensures ids[i] in r.prices && r.prices[ids[i]].plan == p && PriceIn(r.metrics, r.prices[ids[i]]) == prices[i]
    {
      assert ids[i] in PricesUnder(db.prices, p);
      assert PriceFits(db, db.prices[ids[i]]);
    }
    forall q
      ensures PricesFor(r, ids, q) == if q == p then prices else []
    {
      PricesForOne(r, p, ids, prices, q);
    }
  }

  lemma GrantsForListed(db: Tables, v: Id, p: Id, ids: seq<Id>, es: seq<EntitlementInput>)
    requires RowsOk(db) && p in PlansAt(db.plans, v) && GrantsListed(db, p, ids, es)
    ensures forall id | id in ids :: id in GrantsAt(db.grants, v)
    ensures forall q :: GrantsFor(RowsOf(db, v), ids, q) == if q == p then es else []
  {
    var r := RowsOf(db, v);
    forall i | 0 <= i < |ids|
      ensures ids[i] in r.grants && r.grants[ids[i]].plan == p && GrantIn(r.grants[ids[i]]) == es[i]
    {
      assert ids[i] in GrantsUnder(db.grants, p);
      assert GrantFits(db, db.grants[ids[i]]);
    }
    forall q
      ensures GrantsFor(r, ids, q) == if q == p then es else []
    {
      GrantsForOne(r, p, ids, es, q);
    }
  }

  predicate Distinct(ids: seq<Id>) { forall i, j | 0 <= i < j < |ids| :: ids[i] != ids[j] }

  function PriceOwners(db: Tables, v: Id): map<Id, Id> { map id | id in PricesAt(db.prices, v) :: db.prices[id].plan }

  function GrantOwners(db: Tables, v: Id): map<Id, Id> { map id | id in GrantsAt(db.grants, v) :: db.grants[id].plan }

  /** `ids` lists exactly the rows that the plans `ps` own. */
  predicate Owned(owner: map<Id, Id>, ps: seq<Id>, ids: seq<Id>) {
    && Distinct(ids)
    && (forall id | id in ids :: id in owner && owner[id] in ps)
    && (forall id | id in owner && owner[id] in ps :: id in ids)
  }

  lemma OwnedJoin(owner: map<Id, Id>, ps: seq<Id>, p: Id, init: seq<Id>, own: seq<Id>)
    requires p !in ps && Owned(owner, ps, init) && Owned(owner, [p], own)
    ensures Owned(owner, ps + [p], init + own)
  {
    var all := init + own;
    forall i, j | 0 <= i < j < |all|
      ensures all[i] != all[j]
    {
      if i < |init| <= j {
        assert init[i] in init && own[j - |init|] in own;
      }
    }
  }

  ghost predicate PricesReadBack(r: Rows, ids: seq<Id>, ps: seq<Id>, plans: seq<PlanInput>) {
    && |ps| == |plans| && (forall id | id in ids :: id in r.prices)
    && (forall q | q !in ps :: PricesFor(r, ids, q) == [])
    && (forall i | 0 <= i < |ps| :: PricesFor(r, ids, ps[i]) == plans[i].prices)
  }

  ghost predicate GrantsReadBack(r: Rows, ids: seq<Id>, ps: seq<Id>, plans: seq<PlanInput>) {
    && |ps| == |plans| && (forall id | id in ids :: id in r.grants)
    && (forall q | q !in ps :: GrantsFor(r, ids, q) == [])
    && (forall i | 0 <= i < |ps| :: GrantsFor(r, ids, ps[i]) == plans[i].entitlements)
  }

  lemma PricesReadNext(r: Rows, init: seq<Id>, own: seq<Id>, ps: seq<Id>, plans: seq<PlanInput>, p: Id, plan: PlanInput)
    requires PricesReadBack(r, init, ps, plans) && p !in ps
    requires (forall id | id in own :: id in r.prices)
    requires forall q :: PricesFor(r, own, q) == if q == p then plan.prices else []
    ensures PricesReadBack(r, init + own, ps + [p], plans + [plan])
  {
    forall q
      ensures PricesFor(r, init + own, q) == PricesFor(r, init, q) + PricesFor(r, own, q)
    {
      PricesForAppend(r, init, own, q);
    }
    var all, more := ps + [p], plans + [plan];
    forall i | 0 <= i < |all|
      ensures PricesFor(r, init + own, all[i]) == more[i].prices
    {
      assert i < |ps| ==> ps[i] in ps;
    }
  }

  lemma GrantsReadNext(r: Rows, init: seq<Id>, own: seq<Id>, ps: seq<Id>, plans: seq<PlanInput>, p: Id, plan: PlanInput)
    requires GrantsReadBack(r, init, ps, plans) && p !in ps
    requires (forall id | id in own :: id in r.grants)
    requires forall q :: GrantsFor(r, own, q) == if q == p then plan.entitlements else []
    ensures GrantsReadBack(r, init + own, ps + [p], plans + [plan])
  {
    forall q
      ensures GrantsFor(r, init + own, q) == GrantsFor(r, init, q) + GrantsFor(r, own, q)
    {
      GrantsForAppend(r, init, own, q);
    }
    var all, more := ps + [p], plans + [plan];
    forall i | 0 <= i < |all|
      ensures GrantsFor(r, init + own, all[i]) == more[i].entitlements
    {
      assert i < |ps| ==> ps[i] in ps;
    }
  }

  lemma PriceLists(db: Tables, v: Id, p: Id, ids: seq<Id>, prices: seq<PriceInput>)
    requires RowsOk(db) && p in PlansAt(db.plans, v) && PricesListed(db, p, ids, prices)
    ensures Owned(PriceOwners(db, v), [p], ids)
  {
    forall id | id in ids
      ensures id in PricesAt(db.prices, v)
    {
      assert id in PricesUnder(db.prices, p) && PriceFits(db, db.prices[id]);
    }
    forall id | id in PriceOwners(db, v) && db.prices[id].plan in [p]
      ensures id in ids
    {
      assert id in PricesUnder(db.prices, p);
    }
  }

  lemma GrantLists(db: Tables, v: Id, p: Id, ids: seq<Id>, es: seq<EntitlementInput>)
    requires RowsOk(db) && p in PlansAt(db.plans, v) && GrantsListed(db, p, ids, es)
    ensures Owned(GrantOwners(db, v), [p], ids)
  {
    forall id | id in ids
      ensures id in GrantsAt(db.grants, v)
    {
      assert id in GrantsUnder(db.grants, p) && GrantFits(db, db.grants[id]);
    }
    forall id | id in GrantOwners(db, v) && db.grants[id].plan in [p]
      ensures id in ids
    {
      assert id in GrantsUnder(db.grants, p);
    }
  }

  ghost predicate PlansRead(db: Tables, v: Id, ps: seq<Id>, plans: seq<PlanInput>) {
    && |ps| == |plans| && Distinct(ps)
    && forall i | 0 <= i < |ps| :: ps[i] in PlansAt(db.plans, v) && PlanReadsAs(db, ps[i], plans[i])
  }

  lemma SplitPlans(db: Tables, v: Id, ps: seq<Id>, plans: seq<PlanInput>, n: nat)
    requires n + 1 == |ps| && PlansRead(db, v, ps, plans)
    ensures PlansRead(db, v, ps[..n], plans[..n]) && ps[n] !in ps[..n]
    ensures ps[n] in PlansAt(db.plans, v) && PlanReadsAs(db, ps[n], plans[n])
    ensures ps == ps[..n] + [ps[n]] && plans == plans[..n] + [plans[n]]
  {
  }

  /** One list of prices and one of grants that serve all the plans at once. */
  lemma {:induction false} JoinLists(db: Tables, v: Id, ps: seq<Id>, plans: seq<PlanInput>)
    returns (prices: seq<Id>, grants: seq<Id>)
    requires RowsOk(db) && PlansRead(db, v, ps, plans)
    ensures ListsServe(db, v, ps, plans, prices, grants)
    decreases |ps|
  {
    if |ps| == 0 {
      prices, grants := [], [];
    } else {
      var n := |ps| - 1;
      SplitPlans(db, v, ps, plans, n);
      prices, grants := JoinLists(db, v, ps[..n], plans[..n]);
      prices, grants := JoinOneMore(db, v, ps[..n], plans[..n], ps[n], plans[n], prices, grants);
    }
  }

  ghost predicate ListsServe(db: Tables, v: Id, ps: seq<Id>, plans: seq<PlanInput>, prices: seq<Id>, grants: seq<Id>) {
    && Owned(PriceOwners(db, v), ps, prices) && PricesReadBack(RowsOf(db, v), prices, ps, plans)
    && Owned(GrantOwners(db, v), ps, grants) && GrantsReadBack(RowsOf(db, v), grants, ps, plans)
  }

  lemma JoinOneMore(db: Tables, v: Id, ps: seq<Id>, plans: seq<PlanInput>, p: Id, plan: PlanInput,
                    prices0: seq<Id>, grants0: seq<Id>) returns (prices: seq<Id>, grants: seq<Id>)
    requires RowsOk(db) && p !in ps && p in PlansAt(db.plans, v) && PlanReadsAs(db, p, plan)
    requires ListsServe(db, v, ps, plans, prices0, grants0)
    ensures ListsServe(db, v, ps + [p], plans + [plan], prices, grants)
  {
    prices := JoinPricesOfOne(db, v, ps, plans, p, plan, prices0);
    grants := JoinGrantsOfOne(db, v, ps, plans, p, plan, grants0);
  }

  lemma JoinPricesOfOne(db: Tables, v: Id, ps: seq<Id>, plans: seq<PlanInput>, p: Id, plan: PlanInput, init: seq<Id>)
    returns (all: seq<Id>)
    requires RowsOk(db) && p !in ps && p in PlansAt(db.plans, v) && PlanReadsAs(db, p, plan)
    requires Owned(PriceOwners(db, v), ps, init) && PricesReadBack(RowsOf(db, v), init, ps, plans)
    ensures Owned(PriceOwners(db, v), ps + [p], all) && PricesReadBack(RowsOf(db, v), all, ps + [p], plans + [plan])
  {
    var own :| PricesListed(db, p, own, plan.prices);
    PriceLists(db, v, p, own, plan.prices);
    PricesForListed(db, v, p, own, plan.prices);
    OwnedJoin(PriceOwners(db, v), ps, p, init, own);
    PricesReadNext(RowsOf(db, v), init, own, ps, plans, p, plan);
    all := init + own;
  }

  lemma JoinGrantsOfOne(db: Tables, v: Id, ps: seq<Id>, plans: seq<PlanInput>, p: Id, plan: PlanInput, init: seq<Id>)
    returns (all: seq<Id>)
    requires RowsOk(db) && p !in ps && p in PlansAt(db.plans, v) && PlanReadsAs(db, p, plan)
    requires Owned(GrantOwners(db, v), ps, init) && GrantsReadBack(RowsOf(db, v), init, ps, plans)
    ensures Owned(GrantOwners(db, v), ps + [p], all) && GrantsReadBack(RowsOf(db, v), all, ps + [p], plans + [plan])
  {
    var own :| GrantsListed(db, p, own, plan.entitlements);
    GrantLists(db, v, p, own, plan.entitlements);
    GrantsForListed(db, v, p, own, plan.entitlements);
    OwnedJoin(GrantOwners(db, v), ps, p, init, own);
    GrantsReadNext(RowsOf(db, v), init, own, ps, plans, p, plan);
    all := init + own;
  }

  /** If each plan reads back as it should, and so do the metrics, then the version does. */
  lemma VersionReadsAs(db: Tables, v: Id, ms: seq<Id>, ps: seq<Id>, c: Content)
    requires RowsOk(db)
    requires Enumerates(ms, MetricsAt(db.metrics, v).Keys) && |ms| == |c.metrics|
    requires forall i | 0 <= i < |ms| :: ms[i] in db.metrics && MetricIn(db.metrics[ms[i]]) == c.metrics[i]
    requires Enumerates(ps, PlansAt(db.plans, v).Keys) && PlansRead(db, v, ps, c.plans)
    ensures ReadsAs(RowsOf(db, v), c)
  {
    var r := RowsOf(db, v);
    var prices, grants := JoinLists(db, v, ps, c.plans);
    var l := Listing(ms, ps, prices, grants);
    assert Lists(l, r) by {
      forall id | id in r.prices
        ensures id in prices
      {
        assert PriceFits(db, db.prices[id]) && id in PriceOwners(db, v);
      }
      forall id | id in r.grants
        ensures id in grants
      {
        assert GrantFits(db, db.grants[id]) && id in GrantOwners(db, v);
      }
    }
    forall i | 0 <= i < |ps|
      ensures PlanIn(r, l, ps[i]) == c.plans[i]
    {
      assert ps[i] in ps && PlanReadsAs(db, ps[i], c.plans[i]);
    }
    assert ContentOf(r, l).metrics == c.metrics && ContentOf(r, l).plans == c.plans;
  }

  // ---- replaceCatalogContentTx ----

  /** What a metric reads back as once stored: a missing billable flag is stored as true. */
  function Stored(m: MetricInput): MetricInput {
    m.(billable := Some(if m.billable.Some? then m.billable.value else true))
  }

  function StoredMetrics(ms: seq<MetricInput>): (r: seq<MetricInput>)
    ensures |r| == |ms| && forall i | 0 <= i < |ms| :: r[i] == Stored(ms[i])
  {
    seq(|ms|, i requires 0 <= i < |ms| => Stored(ms[i]))
  }

  function StoredForm(c: Content): Content { Content(StoredMetrics(c.metrics), c.plans) }

  lemma GrantsDeletable(db: Tables, v: Id)
    requires Invariant(db) && IsDraft(db, v)
    ensures var ids := GrantsAt(db.grants, v).Keys;
            && CanDeleteGrants(db, ids)
            && Invariant(DeleteGrants(db, ids)) && Evolves(db, DeleteGrants(db, ids))
  {
    var ids := GrantsAt(db.grants, v).Keys;
    assert forall id | id in ids :: GrantFits(db, db.grants[id]);
    DeleteGrantsKeeps(db, ids);
  }

  lemma PricesDeletable(db: Tables, v: Id)
    requires Invariant(db) && IsDraft(db, v)
    ensures var ids := PricesAt(db.prices, v).Keys;
            && CanDeletePrices(db, ids)
            && Invariant(DeletePrices(db, ids)) && Evolves(db, DeletePrices(db, ids))
  {
    var ids := PricesAt(db.prices, v).Keys;
    assert forall id | id in ids :: PriceFits(db, db.prices[id]);
    DeletePricesKeeps(db, ids);
  }

  /** Nothing refers to the plans of a draft without prices and grants: subscriptions pin other versions. */
  lemma PlansUnreferenced(db: Tables, v: Id)
    requires Invariant(db) && IsDraft(db, v) && PricesAt(db.prices, v) == map[] && GrantsAt(db.grants, v) == map[]
    ensures CanDeletePlans(db, PlansAt(db.plans, v).Keys)
  {
    var plans := PlansAt(db.plans, v).Keys;
    forall r | r in db.prices
      ensures db.prices[r].plan !in plans
    {
      assert PriceFits(db, db.prices[r]) && r !in PricesAt(db.prices, v);
    }
    forall g | g in db.grants
      ensures db.grants[g].plan !in plans
    {
      assert GrantFits(db, db.grants[g]) && g !in GrantsAt(db.grants, v);
    }
    forall s | s in db.subscriptions
      ensures db.subscriptions[s].plan !in plans
    {
      assert SubscriptionOk(db, s);
    }
  }

  lemma PlansDeletable(db: Tables, v: Id)
    requires Invariant(db) && IsDraft(db, v) && PricesAt(db.prices, v) == map[] && GrantsAt(db.grants, v) == map[]
    ensures var ids := PlansAt(db.plans, v).Keys;
            && CanDeletePlans(db, ids)
            && Invariant(DeletePlans(db, ids)) && Evolves(db, DeletePlans(db, ids))
  {
    PlansUnreferenced(db, v);
    DeletePlansKeeps(db, PlansAt(db.plans, v).Keys);
  }

  lemma MetricsDeletable(db: Tables, v: Id)
    requires Invariant(db) && IsDraft(db, v) && PricesAt(db.prices, v) == map[]
    ensures var ids := MetricsAt(db.metrics, v).Keys;
            && CanDeleteMetrics(db, ids)
            && Invariant(DeleteMetrics(db, ids)) && Evolves(db, DeleteMetrics(db, ids))
  {
    var ids := MetricsAt(db.metrics, v).Keys;
    forall id | id in db.prices
      ensures db.prices[id].metric.Some? ==> db.prices[id].metric.value !in ids
    {
      assert PriceFits(db, db.prices[id]) && id !in PricesAt(db.prices, v);
    }
    DeleteMetricsKeeps(db, ids);
  }

  function Emptied(a: Tables, v: Id): Tables {
    a.(grants := a.grants - GrantsAt(a.grants, v).Keys, prices := a.prices - PricesAt(a.prices, v).Keys,
       plans := a.plans - PlansAt(a.plans, v).Keys, metrics := a.metrics - MetricsAt(a.metrics, v).Keys)
  }

  lemma EmptiedOthers(a: Tables, v: Id, w: Id)
    requires w != v
    ensures RowsOf(Emptied(a, v), w) == RowsOf(a, w)
  {
    var e := Emptied(a, v);
    assert MetricsAt(e.metrics, w) == MetricsAt(a.metrics, w);
    assert PlansAt(e.plans, w) == PlansAt(a.plans, w);
    assert PricesAt(e.prices, w) == PricesAt(a.prices, w);
    assert GrantsAt(e.grants, w) == GrantsAt(a.grants, w);
  }

  lemma EmptiedVersion(a: Tables, v: Id)
    ensures RowsOf(Emptied(a, v), v) == NO_ROWS
  {
    var e := Emptied(a, v);
    assert MetricsAt(e.metrics, v) == map[] && PlansAt(e.plans, v) == map[];
    assert PricesAt(e.prices, v) == map[] && GrantsAt(e.grants, v) == map[];
  }

  lemma EmptiedRows(a: Tables, v: Id)
    ensures SameBut(a, Emptied(a, v), v) && RowsOf(Emptied(a, v), v) == NO_ROWS
  {
    EmptiedVersion(a, v);
    forall w: Id | w != v
      ensures RowsOf(Emptied(a, v), w) == RowsOf(a, w)
    {
      EmptiedOthers(a, v, w);
    }
  }

  method DeleteChildRows(tx0: Tables, v: Id) returns (tx: Tables)
    requires Invariant(tx0) && IsDraft(tx0, v)
    ensures Invariant(tx) && Evolves(tx0, tx)
    ensures tx == tx0.(grants := tx0.grants - GrantsAt(tx0.grants, v).Keys,
                       prices := tx0.prices - PricesAt(tx0.prices, v).Keys)
  {
    GrantsDeletable(tx0, v);
    var tx1 := DeleteGrants(tx0, GrantsAt(tx0.grants, v).Keys);
    PricesDeletable(tx1, v);
    tx := DeletePrices(tx1, PricesAt(tx1.prices, v).Keys);
    EvolvesTransitive(tx0, tx1, tx);
  }

  method DeleteHeadRows(tx0: Tables, v: Id) returns (tx: Tables)
    requires Invariant(tx0) && IsDraft(tx0, v) && PricesAt(tx0.prices, v) == map[] && GrantsAt(tx0.grants, v) == map[]
    ensures Invariant(tx) && Evolves(tx0, tx)
    ensures tx == tx0.(plans := tx0.plans - PlansAt(tx0.plans, v).Keys,
                       metrics := tx0.metrics - MetricsAt(tx0.metrics, v).Keys)
  {
    PlansDeletable(tx0, v);
    var tx1 := DeletePlans(tx0, PlansAt(tx0.plans, v).Keys);
    MetricsDeletable(tx1, v);
    tx := DeleteMetrics(tx1, MetricsAt(tx1.metrics, v).Keys);
    EvolvesTransitive(tx0, tx1, tx);
  }

  lemma ChildrenGone(a: Tables, b: Tables, v: Id)
    requires b == a.(grants := a.grants - GrantsAt(a.grants, v).Keys, prices := a.prices - PricesAt(a.prices, v).Keys)
    ensures PricesAt(b.prices, v) == map[] && GrantsAt(b.grants, v) == map[]
  {
  }

  /** Children first: prices and grants refer to plans. */
  method DeleteContent(tx0: Tables, v: Id) returns (tx: Tables)
    requires Invariant(tx0) && IsDraft(tx0, v)
    ensures Invariant(tx) && Evolves(tx0, tx) && SameBut(tx0, tx, v)
    ensures RowsOf(tx, v) == NO_ROWS
  {
    var tx1 := DeleteChildRows(tx0, v);
    ChildrenGone(tx0, tx1, v);
    tx := DeleteHeadRows(tx1, v);
    EvolvesTransitive(tx0, tx1, tx);
    EmptiedRows(tx0, v);
  }

  // ---- the metrics ----

  predicate MetricsAdded(a: Tables, b: Tables, v: Id) {
    && b == a.(metrics := b.metrics, nextId := b.nextId) && a.nextId <= b.nextId
    && (forall id | id in a.metrics :: id in b.metrics && b.metrics[id] == a.metrics[id])
    && (forall id | id in b.metrics && id !in a.metrics ::
          id < b.nextId && b.metrics[id].version == v && MetricFits(a, b.metrics[id]))
  }

  /** The row's fields are those of the input; a metric is billable unless the input says it is not. */
  predicate MetricAsGiven(row: MetricRow, m: MetricInput) {
    && row.code == m.code && row.name == m.name && row.aggregation == m.aggregation
    && (if m.fieldName == "" then row.fieldName == None else row.fieldName == Some(m.fieldName))
    && (row.billable <==> m.billable != Some(false))
  }

  lemma MetricsAsGiven(db: Tables, v: Id, ms: seq<Id>, metrics: seq<MetricInput>)
    requires MetricsListed(db, v, ms, metrics)
    ensures forall m | m in metrics :: exists id :: id in RowsOf(db, v).metrics
                                                  && MetricAsGiven(RowsOf(db, v).metrics[id], m)
  {
    forall m | m in metrics
      ensures exists id :: id in RowsOf(db, v).metrics && MetricAsGiven(RowsOf(db, v).metrics[id], m)
    {
      var i :| 0 <= i < |metrics| && metrics[i] == m;
      assert ms[i] in ms && MetricAsGiven(RowsOf(db, v).metrics[ms[i]], m);
    }
  }

  /** The metrics of version `v` are `ms`, and they read back as `metrics` do once stored. */
  predicate MetricsListed(db: Tables, v: Id, ms: seq<Id>, metrics: seq<MetricInput>) {
    && Enumerates(ms, MetricsAt(db.metrics, v).Keys)
    && |ms| == |metrics|
    && forall i | 0 <= i < |ms| ::
         && ms[i] in db.metrics && MetricIn(db.metrics[ms[i]]) == Stored(metrics[i])
         && MetricAsGiven(db.metrics[ms[i]], metrics[i])
  }

  function NewMetric(v: Id, m: MetricInput): MetricRow {
    MetricRow(v, m.code, m.name, m.aggregation, if m.fieldName == "" then None else Some(m.fieldName),
              if m.billable.Some? then m.billable.value else true)
  }

  lemma MetricListedNext(tx: Tables, v: Id, ms: seq<Id>, metrics: seq<MetricInput>, m: MetricInput)
    requires MetricsListed(tx, v, ms, metrics) && tx.nextId !in tx.metrics && AcceptsMetric(tx, NewMetric(v, m))
    ensures MetricsListed(InsertMetric(tx, NewMetric(v, m)), v, ms + [tx.nextId], metrics + [m])
  {
    var more := ms + [tx.nextId];
    forall id | id in MetricsAt(InsertMetric(tx, NewMetric(v, m)).metrics, v)
      ensures id in more
    {
      assert id == tx.nextId || id in MetricsAt(tx.metrics, v);
      assert id == tx.nextId ==> more[|ms|] == id;
    }
  }

  lemma MetricAccepted(tx: Tables, v: Id, ms: seq<Id>, metrics: seq<MetricInput>, i: nat)
    requires i < |metrics| && IsDraft(tx, v) && MetricsListed(tx, v, ms, metrics[..i]) && MetricsOk(metrics)
    ensures AcceptsMetric(tx, NewMetric(v, metrics[i]))
  {
    assert metrics[i] in metrics;
    forall id | id in tx.metrics && tx.metrics[id].version == v
      ensures tx.metrics[id].code != metrics[i].code
    {
      assert id in MetricsAt(tx.metrics, v);
      var j :| 0 <= j < |ms| && ms[j] == id;
      assert MetricIn(tx.metrics[id]) == Stored(metrics[j]);
    }
  }

  lemma NextMetric(tx0: Tables, tx: Tables, v: Id, ms: seq<Id>, metrics: seq<MetricInput>, i: nat)
    requires i < |metrics| && IsDraft(tx, v) && MetricsOk(metrics) && tx.nextId !in tx.metrics
    requires MetricsAdded(tx0, tx, v) && MetricsListed(tx, v, ms, metrics[..i]) && v < |tx0.versions|
    ensures AcceptsMetric(tx, NewMetric(v, metrics[i]))
    ensures var tx' := InsertMetric(tx, NewMetric(v, metrics[i]));
            MetricsAdded(tx0, tx', v) && MetricsListed(tx', v, ms + [tx.nextId], metrics[..i + 1])
  {
    assert metrics[i] in metrics && metrics[..i + 1] == metrics[..i] + [metrics[i]];
    MetricAccepted(tx, v, ms, metrics, i);
    MetricListedNext(tx, v, ms, metrics[..i], metrics[i]);
  }

  /** Each metric's code leads to its row. */
  predicate Coded(metricIDs: map<string, Id>, metrics: seq<MetricInput>, ms: seq<Id>) {
    && metricIDs.Keys == Codes(metrics) && |ms| == |metrics|
    && forall j | 0 <= j < |metrics| :: metrics[j].code in metricIDs && metricIDs[metrics[j].code] == ms[j]
  }

  lemma CodedNext(metricIDs: map<string, Id>, metrics: seq<MetricInput>, i: nat, ms: seq<Id>, id: Id)
    requires i < |metrics| && MetricsOk(metrics) && Coded(metricIDs, metrics[..i], ms)
    ensures Coded(metricIDs[metrics[i].code := id], metrics[..i + 1], ms + [id])
  {
    CodesNext(metrics, i);
  }

  method InsertMetrics(tx0: Tables, v: Id, metrics: seq<MetricInput>)
    returns (tx: Tables, metricIDs: map<string, Id>, ghost ms: seq<Id>)
    requires IsDraft(tx0, v) && MetricsAt(tx0.metrics, v) == map[] && forall id | id in tx0.metrics :: id < tx0.nextId
    requires MetricsOk(metrics)
    ensures MetricsAdded(tx0, tx, v) && MetricsListed(tx, v, ms, metrics)
    ensures metricIDs.Keys == Codes(metrics)
    ensures forall i | 0 <= i < |metrics| :: metrics[i].code in metricIDs && metricIDs[metrics[i].code] == ms[i]
  {
    tx, metricIDs, ms := tx0, map[], [];
    for i := 0 to |metrics|
      invariant MetricsAdded(tx0, tx, v) && MetricsListed(tx, v, ms, metrics[..i]) && tx.nextId !in tx.metrics
      invariant Coded(metricIDs, metrics[..i], ms)
    {
      var m := metrics[i];
      CodedNext(metricIDs, metrics, i, ms, tx.nextId);
      NextMetric(tx0, tx, v, ms, metrics, i);
      metricIDs, ms := metricIDs[m.code := tx.nextId], ms + [tx.nextId];
      tx := InsertMetric(tx, NewMetric(v, m));
    }
    assert metrics[..|metrics|] == metrics;
  }

  lemma CodesNext(metrics: seq<MetricInput>, i: nat)
    requires i < |metrics| && MetricsOk(metrics)
    ensures metrics[..i + 1] == metrics[..i] + [metrics[i]] && metrics[i] in metrics
    ensures Codes(metrics[..i + 1]) == Codes(metrics[..i]) + {metrics[i].code}
    ensures forall j | 0 <= j < i :: metrics[j].code != metrics[i].code && metrics[j].code in Codes(metrics[..i])
  {
    assert metrics[..i + 1] == metrics[..i] + [metrics[i]];
    forall j | 0 <= j < i
      ensures metrics[j].code in Codes(metrics[..i])
    {
      assert metrics[..i][j] in metrics[..i];
    }
  }

  lemma MetricsIndexed(tx: Tables, v: Id, metricIDs: map<string, Id>, ms: seq<Id>, metrics: seq<MetricInput>)
    requires MetricsListed(tx, v, ms, metrics) && metricIDs.Keys == Codes(metrics)
    requires forall i | 0 <= i < |metrics| :: metrics[i].code in metricIDs && metricIDs[metrics[i].code] == ms[i]
    ensures Indexes(metricIDs, tx, v)
  {
    forall c | c in metricIDs
      ensures metricIDs[c] in tx.metrics && tx.metrics[metricIDs[c]].version == v && tx.metrics[metricIDs[c]].code == c
    {
      var m :| m in metrics && m.code == c;
      var i :| 0 <= i < |metrics| && metrics[i] == m;
      assert ms[i] in MetricsAt(tx.metrics, v) && MetricIn(tx.metrics[ms[i]]) == Stored(metrics[i]);
    }
    forall id | id in tx.metrics && tx.metrics[id].version == v
      ensures tx.metrics[id].code in metricIDs
    {
      assert id in MetricsAt(tx.metrics, v);
      var i :| 0 <= i < |ms| && ms[i] == id;
      assert MetricIn(tx.metrics[ms[i]]) == Stored(metrics[i]) && metrics[i] in metrics;
    }
  }

  lemma AddedCodesUnique(a: Tables, b: Tables, v: Id, ms: seq<Id>, metrics: seq<MetricInput>)
    requires MetricCodesUnique(a.metrics) && MetricsAt(a.metrics, v) == map[] && MetricsAdded(a, b, v)
    requires MetricsListed(b, v, ms, metrics) && MetricsOk(metrics)
    ensures MetricCodesUnique(b.metrics)
  {
    forall i, j | i in b.metrics && j in b.metrics && i != j
      ensures !(b.metrics[i].version == b.metrics[j].version && b.metrics[i].code == b.metrics[j].code)
    {
      if b.metrics[i].version == v && b.metrics[j].version == v {
        assert i in MetricsAt(b.metrics, v) && j in MetricsAt(b.metrics, v);
        var x :| 0 <= x < |ms| && ms[x] == i;
        var y :| 0 <= y < |ms| && ms[y] == j;
        assert MetricIn(b.metrics[i]) == Stored(metrics[x]) && MetricIn(b.metrics[j]) == Stored(metrics[y]);
        assert x < y || y < x;
      }
    }
  }

  lemma MetricsAddedFrame(a: Tables, b: Tables, v: Id)
    requires RowsOk(a) && IsDraft(a, v) && MetricsAdded(a, b, v)
    ensures RowsOk(b) && SameBut(a, b, v) && TouchesOnlyDrafts(a, b)
  {
    RowsStayOk(a, b);
    forall w: Id | w != v
      ensures RowsOf(b, w) == RowsOf(a, w)
    {
      assert MetricsAt(b.metrics, w) == MetricsAt(a.metrics, w);
    }
  }

  lemma MetricsAddedKeeps(a: Tables, b: Tables, v: Id)
    requires Invariant(a) && IsDraft(a, v) && MetricsAdded(a, b, v) && MetricCodesUnique(b.metrics)
    ensures Invariant(b) && Evolves(a, b) && SameBut(a, b, v)
  {
    MetricsAddedFrame(a, b, v);
    DraftChangeKeeps(a, b);
  }

  // ---- the plans ----

  /** What was stored under other plans is untouched. */
  lemma PlanReadsOn(a: Tables, b: Tables, p: Id, plan: PlanInput)
    requires PlanReadsAs(a, p, plan) && b.metrics == a.metrics && p in b.plans && b.plans[p] == a.plans[p]
    requires PricesUnder(b.prices, p) == PricesUnder(a.prices, p)
    requires GrantsUnder(b.grants, p) == GrantsUnder(a.grants, p)
    ensures PlanReadsAs(b, p, plan)
  {
    var prices :| PricesListed(a, p, prices, plan.prices);
    var grants :| GrantsListed(a, p, grants, plan.entitlements);
    forall i | 0 <= i < |prices|
      ensures prices[i] in b.prices && b.prices[prices[i]] == a.prices[prices[i]]
    {
      assert prices[i] in PricesUnder(a.prices, p) && prices[i] in PricesUnder(b.prices, p);
      assert PricesUnder(b.prices, p)[prices[i]] == PricesUnder(a.prices, p)[prices[i]];
    }
    forall i | 0 <= i < |grants|
      ensures grants[i] in b.grants && b.grants[grants[i]] == a.grants[grants[i]]
    {
      assert grants[i] in GrantsUnder(a.grants, p) && grants[i] in GrantsUnder(b.grants, p);
      assert GrantsUnder(b.grants, p)[grants[i]] == GrantsUnder(a.grants, p)[grants[i]];
    }
    assert PricesListed(b, p, prices, plan.prices);
    assert GrantsListed(b, p, grants, plan.entitlements);
  }

  predicate CodeFree(db: Tables, v: Id, code: string) {
    forall p | p in db.plans && db.plans[p].version == v :: db.plans[p].code != code
  }

  /** From `a` to `b`, plan `p` came with its prices and grants, and nothing else happened. */
  ghost predicate PlanAdded(a: Tables, b: Tables, p: Id, row: PlanRow) {
    && p !in a.plans
    && b == a.(plans := a.plans[p := row], prices := b.prices, grants := b.grants, nextId := b.nextId)
    && (forall q | q != p :: PricesUnder(b.prices, q) == PricesUnder(a.prices, q))
    && (forall q | q != p :: GrantsUnder(b.grants, q) == GrantsUnder(a.grants, q))
  }

  function NewPlan(v: Id, plan: PlanInput): PlanRow { PlanRow(v, plan.code, plan.name, plan.interval, plan.currency) }

  /** The new row without prices and grants is ready for its children. */
  lemma PlanInserted(tx0: Tables, v: Id, plan: PlanInput, metricIDs: map<string, Id>)
    requires Invariant(tx0) && IsDraft(tx0, v) && CodeFree(tx0, v, plan.code) && Indexes(metricIDs, tx0, v)
    requires PlanOk(plan, metricIDs.Keys, false)
    ensures tx0.nextId !in tx0.plans && AcceptsPlan(tx0, NewPlan(v, plan))
    ensures var tx := InsertPlan(tx0, NewPlan(v, plan));
            && Invariant(tx) && Evolves(tx0, tx) && Indexes(metricIDs, tx, v)
            && PricesUnder(tx.prices, tx0.nextId) == map[] && GrantsUnder(tx.grants, tx0.nextId) == map[]
  {
    InsertPlanKeeps(tx0, NewPlan(v, plan));
  }

  /** One plan with its children, for a version whose metrics `metricIDs` finds. */
  method InsertWholePlan(tx0: Tables, v: Id, plan: PlanInput, metricIDs: map<string, Id>)
    returns (r: Result<Tables, Error>, p: Id)
    requires Invariant(tx0) && IsDraft(tx0, v) && CodeFree(tx0, v, plan.code) && Indexes(metricIDs, tx0, v)
    requires PlanOk(plan, metricIDs.Keys, false)
    ensures r.Ok? <==> AllResolve(plan.prices, metricIDs.Keys)
    ensures r.Err? ==> r.error == ForeignKey
    ensures r.Ok? ==> Invariant(r.value) && Evolves(tx0, r.value) && SameBut(tx0, r.value, v)
    ensures r.Ok? ==> PlanAdded(tx0, r.value, p, NewPlan(v, plan)) && PlanReadsAs(r.value, p, plan)
  {
    p := tx0.nextId;
    PlanInserted(tx0, v, plan, metricIDs);
    var tx1 := InsertPlan(tx0, NewPlan(v, plan));
    r := InsertChildren(tx1, p, plan, metricIDs);
    if r.Ok? {
      PlanAddedKeeps(tx0, tx1, r.value, p, v, plan);
    }
  }

  lemma PlanAddedKeeps(tx0: Tables, tx1: Tables, tx: Tables, p: Id, v: Id, plan: PlanInput)
    requires RowsOk(tx0) && p !in tx0.plans && p == tx0.nextId
    requires tx1 == tx0.(plans := tx0.plans[p := NewPlan(v, plan)], nextId := tx0.nextId + 1)
    requires RowsOk(tx1) && RowsOk(tx) && Evolves(tx0, tx1) && Evolves(tx1, tx) && OnlyChildren(tx1, tx, p)
    ensures Evolves(tx0, tx) && SameBut(tx0, tx, v) && PlanAdded(tx0, tx, p, NewPlan(v, plan))
  {
    EvolvesTransitive(tx0, tx1, tx);
    OnlyChildrenSameBut(tx1, tx, p);
    forall w: Id | w != v
      ensures RowsOf(tx, w) == RowsOf(tx0, w)
    {
      assert PlansAt(tx1.plans, w) == PlansAt(tx0.plans, w);
      assert RowsOf(tx1, w) == RowsOf(tx0, w);
    }
  }

  lemma OneMoreListed(a: Tables, b: Tables, v: Id, ps: seq<Id>, p: Id, row: PlanRow)
    requires Enumerates(ps, PlansAt(a.plans, v).Keys) && p !in a.plans && b.plans == a.plans[p := row]
    requires row.version == v
    ensures Enumerates(ps + [p], PlansAt(b.plans, v).Keys)
  {
    var more := ps + [p];
    forall q | q in PlansAt(b.plans, v)
      ensures q in more
    {
      assert q == p || q in PlansAt(a.plans, v);
      assert q == p ==> more[|ps|] == q;
    }
    forall q | q in more
      ensures q in PlansAt(b.plans, v)
    {
      assert q in ps ==> q in PlansAt(a.plans, v);
    }
    assert p !in ps;
  }

  lemma PlansReadNext(a: Tables, b: Tables, v: Id, ps: seq<Id>, plans: seq<PlanInput>, p: Id, plan: PlanInput)
    requires PlansRead(a, v, ps, plans) && Enumerates(ps, PlansAt(a.plans, v).Keys)
    requires PlanAdded(a, b, p, NewPlan(v, plan)) && PlanReadsAs(b, p, plan)
    ensures PlansRead(b, v, ps + [p], plans + [plan]) && Enumerates(ps + [p], PlansAt(b.plans, v).Keys)
  {
    forall i | 0 <= i < |ps|
      ensures ps[i] in PlansAt(b.plans, v) && PlanReadsAs(b, ps[i], plans[i])
    {
      PlanReadsOn(a, b, ps[i], plans[i]);
    }
    OneMoreListed(a, b, v, ps, p, NewPlan(v, plan));
  }

  predicate PlanCodesDistinct(plans: seq<PlanInput>) {
    forall i, j | 0 <= i < j < |plans| :: plans[i].code != plans[j].code
  }

  lemma CodeIsFree(tx: Tables, v: Id, ps: seq<Id>, plans: seq<PlanInput>, i: nat)
    requires i < |plans| && PlanCodesDistinct(plans)
    requires PlansRead(tx, v, ps, plans[..i]) && Enumerates(ps, PlansAt(tx.plans, v).Keys)
    ensures CodeFree(tx, v, plans[i].code)
  {
    forall p | p in tx.plans && tx.plans[p].version == v
      ensures tx.plans[p].code != plans[i].code
    {
      assert p in PlansAt(tx.plans, v);
      var j :| 0 <= j < |ps| && ps[j] == p;
      assert PlanReadsAs(tx, ps[j], plans[..i][j]);
    }
  }

  predicate AllPlansResolve(plans: seq<PlanInput>, codes: set<string>) {
    forall p | p in plans :: AllResolve(p.prices, codes)
  }

  method InsertPlans(tx0: Tables, v: Id, plans: seq<PlanInput>, metricIDs: map<string, Id>)
    returns (r: Result<Tables, Error>, ghost ps: seq<Id>)
    requires Invariant(tx0) && IsDraft(tx0, v) && PlansAt(tx0.plans, v) == map[] && Indexes(metricIDs, tx0, v)
    requires PlanCodesDistinct(plans) && forall p | p in plans :: PlanOk(p, metricIDs.Keys, false)
    ensures r.Ok? <==> AllPlansResolve(plans, metricIDs.Keys)
    ensures r.Err? ==> r.error == ForeignKey
    ensures r.Ok? ==> Invariant(r.value) && Evolves(tx0, r.value) && SameBut(tx0, r.value, v)
    ensures r.Ok? ==> r.value.metrics == tx0.metrics
    ensures r.Ok? ==> PlansRead(r.value, v, ps, plans) && Enumerates(ps, PlansAt(r.value.plans, v).Keys)
  {
    var tx := tx0;
    ps := [];
    for i := 0 to |plans|
      invariant Invariant(tx) && Evolves(tx0, tx) && SameBut(tx0, tx, v) && tx.metrics == tx0.metrics
      invariant PlansRead(tx, v, ps, plans[..i]) && Enumerates(ps, PlansAt(tx.plans, v).Keys)
      invariant AllPlansResolve(plans[..i], metricIDs.Keys)
    {
      var plan := plans[i];
      assert plans[..i + 1] == plans[..i] + [plan] && plan in plans;
      CodeIsFree(tx, v, ps, plans, i);
      var p;
      r, p := InsertWholePlan(tx, v, plan, metricIDs);
      if r.Err? {
        return;
      }
      PlansReadNext(tx, r.value, v, ps, plans[..i], p, plan);
      EvolvesTransitive(tx0, tx, r.value);
      ps := ps + [p];
      tx := r.value;
    }
    assert plans[..|plans|] == plans;
    r := Ok(tx);
  }

  /**
   * The round trip: a replacement succeeds exactly when every metric code given resolves, and then the
   * version reads back as the content that was given, up to the default of the billable flag and the order
   * in which the queries list it.
   */
  method ReplaceContent(tx0: Tables, v: Id, c: Content) returns (r: Result<Tables, Error>)
    requires Invariant(tx0) && IsDraft(tx0, v) && CatalogOk(c, false)
    ensures r.Ok? <==> AllPlansResolve(c.plans, Codes(c.metrics))
    ensures r.Err? ==> r.error == ForeignKey
    ensures r.Ok? ==> Invariant(r.value) && Evolves(tx0, r.value) && SameBut(tx0, r.value, v)
    ensures r.Ok? ==> ReadsOnlyAs(RowsOf(r.value, v), StoredForm(c))
    ensures r.Ok? ==> forall m | m in c.metrics :: exists id :: id in RowsOf(r.value, v).metrics
                                                              && MetricAsGiven(RowsOf(r.value, v).metrics[id], m)
  {
    var tx1 := DeleteContent(tx0, v);
    var tx2, metricIDs;
    ghost var ms, ps;
    tx2, metricIDs, ms := InsertMetrics(tx1, v, c.metrics);
    MetricsStored(tx0, tx1, tx2, v, metricIDs, ms, c.metrics);
    r, ps := InsertPlans(tx2, v, c.plans, metricIDs);
    if r.Ok? {
      Replaced(tx0, tx2, r.value, v, ms, ps, c);
      OnlyReading(r.value, v, StoredForm(c));
      MetricsAsGiven(r.value, v, ms, c.metrics);
    }
  }

  lemma MetricsStored(tx0: Tables, tx1: Tables, tx2: Tables, v: Id, metricIDs: map<string, Id>, ms: seq<Id>,
                      metrics: seq<MetricInput>)
    requires Invariant(tx1) && Evolves(tx0, tx1) && SameBut(tx0, tx1, v) && RowsOf(tx1, v) == NO_ROWS && IsDraft(tx1, v)
    requires MetricsAdded(tx1, tx2, v) && MetricsListed(tx2, v, ms, metrics) && MetricsOk(metrics)
    requires metricIDs.Keys == Codes(metrics)
    requires forall i | 0 <= i < |metrics| :: metrics[i].code in metricIDs && metricIDs[metrics[i].code] == ms[i]
    ensures Invariant(tx2) && Evolves(tx0, tx2) && SameBut(tx0, tx2, v) && PlansAt(tx2.plans, v) == map[]
    ensures Indexes(metricIDs, tx2, v)
  {
    AddedCodesUnique(tx1, tx2, v, ms, metrics);
    MetricsAddedKeeps(tx1, tx2, v);
    MetricsIndexed(tx2, v, metricIDs, ms, metrics);
    EvolvesTransitive(tx0, tx1, tx2);
  }

  lemma Replaced(tx0: Tables, tx2: Tables, tx: Tables, v: Id, ms: seq<Id>, ps: seq<Id>, c: Content)
    requires RowsOk(tx) && Evolves(tx0, tx2) && Evolves(tx2, tx) && SameBut(tx0, tx2, v) && SameBut(tx2, tx, v)
    requires MetricsListed(tx2, v, ms, c.metrics) && tx.metrics == tx2.metrics
    requires PlansRead(tx, v, ps, c.plans) && Enumerates(ps, PlansAt(tx.plans, v).Keys)
    ensures Evolves(tx0, tx) && SameBut(tx0, tx, v) && ReadsAs(RowsOf(tx, v), StoredForm(c))
  {
    EvolvesTransitive(tx0, tx2, tx);
    VersionReadsAs(tx, v, ms, ps, StoredForm(c));
  }
}
