/**
 * The transaction bodies that write a plan's prices and grants.  Each works on a private copy of the
 * tables, which the operation commits or abandons as a whole.  The two loops succeed exactly if every
 * metric code given resolves; afterwards the plan's rows, in the order they were inserted, read back as
 * given, and no other plan's rows have changed.
 */
module CatalogEditing {
  import opened Prelude
  import opened CatalogContent
  import opened CatalogStore
  import opened CatalogReading
  import opened CatalogCloning

  datatype Error = NotFound | Conflict | Invalid | InvalidTransition | ForeignKey | NotWritable | Blocked

  // ---- a plan's prices and grants ----

  predicate HeadReadsAs(row: PlanRow, plan: PlanInput) {
    row.code == plan.code && row.name == plan.name && row.interval == plan.interval && row.currency == plan.currency
  }

  /** The row's fields are those of the input, and its metric is the one with the code given, if one is. */
  predicate PriceAsGiven(metrics: map<Id, MetricRow>, row: PriceRow, pr: PriceInput) {
    && row.chargeModel == pr.chargeModel && row.properties == pr.properties
    && (pr.metricCode != "" ==>
        row.metric.Some? && row.metric.value in metrics && metrics[row.metric.value].code == pr.metricCode)
  }

  predicate GrantAsGiven(row: GrantRow, e: EntitlementInput) {
    row.key == e.key && row.valueType == e.valueType && row.value == e.value
  }

  /** The prices stored under plan `p` are `ids`, and they read back as `prices`. */
  predicate PricesListed(db: Tables, p: Id, ids: seq<Id>, prices: seq<PriceInput>) {
    && Enumerates(ids, PricesUnder(db.prices, p).Keys)
    && |ids| == |prices|
    && forall i | 0 <= i < |ids| ::
         && ids[i] in db.prices && PriceIn(db.metrics, db.prices[ids[i]]) == prices[i]
         && PriceAsGiven(db.metrics, db.prices[ids[i]], prices[i])
  }

  predicate GrantsListed(db: Tables, p: Id, ids: seq<Id>, entitlements: seq<EntitlementInput>) {
    && Enumerates(ids, GrantsUnder(db.grants, p).Keys)
    && |ids| == |entitlements|
    && forall i | 0 <= i < |ids| ::
         && ids[i] in db.grants && GrantIn(db.grants[ids[i]]) == entitlements[i]
         && GrantAsGiven(db.grants[ids[i]], entitlements[i])
  }

  /** What is stored under plan `p` is what `plan` says. */
  ghost predicate PlanReadsAs(db: Tables, p: Id, plan: PlanInput) {
    && p in db.plans && HeadReadsAs(db.plans[p], plan)
    && (exists ids :: PricesListed(db, p, ids, plan.prices))
    && (exists ids :: GrantsListed(db, p, ids, plan.entitlements))
  }

  /** From `a` to `b`, valid prices were added under plan `p` and nothing else happened. */
  predicate PricesAdded(a: Tables, b: Tables, p: Id) {
    && b == a.(prices := b.prices, nextId := b.nextId) && a.nextId <= b.nextId
    && (forall id | id in a.prices :: id in b.prices && b.prices[id] == a.prices[id])
    && (forall id | id in b.prices && id !in a.prices ::
          id < b.nextId && b.prices[id].plan == p && PriceFits(a, b.prices[id]))
  }

  predicate GrantsAdded(a: Tables, b: Tables, p: Id) {
    && b == a.(grants := b.grants, nextId := b.nextId) && a.nextId <= b.nextId
    && (forall id | id in a.grants :: id in b.grants && b.grants[id] == a.grants[id])
    && (forall id | id in b.grants && id !in a.grants ::
          id < b.nextId && b.grants[id].plan == p && GrantFits(a, b.grants[id]))
  }

  /** `metricIDs` finds the metrics of version `v` by code. */
  predicate Indexes(metricIDs: map<string, Id>, db: Tables, v: Id) {
    && (forall c | c in metricIDs :: metricIDs[c] in db.metrics && db.metrics[metricIDs[c]].version == v
                                     && db.metrics[metricIDs[c]].code == c)
    && (forall m | m in db.metrics && db.metrics[m].version == v :: db.metrics[m].code in metricIDs)
  }

  predicate PricesFit(currency: string, prices: seq<PriceInput>, codes: set<string>) {
    forall pr | pr in prices :: PriceOk(currency, pr.chargeModel, pr.properties, Resolves(pr.metricCode, codes))
  }

  /** Each metric code given is one of `codes`. */
  predicate AllResolve(prices: seq<PriceInput>, codes: set<string>) {
    forall pr | pr in prices :: pr.metricCode == "" || pr.metricCode in codes
  }

  function NewPrice(p: Id, v: Id, pr: PriceInput, metricIDs: map<string, Id>): PriceRow
    requires pr.metricCode == "" || pr.metricCode in metricIDs
  {
    PriceRow(p, v, if pr.metricCode == "" then None else Some(metricIDs[pr.metricCode]), pr.chargeModel, pr.properties)
  }

  lemma PriceListedNext(tx: Tables, p: Id, ids: seq<Id>, prices: seq<PriceInput>, row: PriceRow, pr: PriceInput)
    requires PricesListed(tx, p, ids, prices) && AcceptsPrice(tx, row) && tx.nextId !in tx.prices
    requires row.plan == p && PriceIn(tx.metrics, row) == pr
    ensures PricesListed(InsertPrice(tx, row), p, ids + [tx.nextId], prices + [pr])
  {
    var more := ids + [tx.nextId];
    forall id | id in PricesUnder(InsertPrice(tx, row).prices, p)
      ensures id in more
    {
      assert id == tx.nextId || id in PricesUnder(tx.prices, p);
      assert id == tx.nextId ==> more[|ids|] == id;
    }
  }

  lemma GrantListedNext(tx: Tables, p: Id, ids: seq<Id>, es: seq<EntitlementInput>, row: GrantRow, e: EntitlementInput)
    requires GrantsListed(tx, p, ids, es) && AcceptsGrant(tx, row) && tx.nextId !in tx.grants
    requires row.plan == p && GrantIn(row) == e
    ensures GrantsListed(InsertGrant(tx, row), p, ids + [tx.nextId], es + [e])
  {
    var more := ids + [tx.nextId];
    forall id | id in GrantsUnder(InsertGrant(tx, row).grants, p)
      ensures id in more
    {
      assert id == tx.nextId || id in GrantsUnder(tx.grants, p);
      assert id == tx.nextId ==> more[|ids|] == id;
    }
  }

  /**
   * The price loop.  A price that names a metric the version lacks is refused by the foreign key: it
   * would refer to the zero id.  Validation lets such a name through only on fixed prices.
   */
  method InsertPrices(tx0: Tables, p: Id, prices: seq<PriceInput>, metricIDs: map<string, Id>)
    returns (r: Result<Tables, Error>, ghost ids: seq<Id>)
    requires p in tx0.plans && IsDraft(tx0, tx0.plans[p].version) && Indexes(metricIDs, tx0, tx0.plans[p].version)
    requires PricesUnder(tx0.prices, p) == map[] && forall id | id in tx0.prices :: id < tx0.nextId
    requires PricesFit(tx0.plans[p].currency, prices, metricIDs.Keys)
    ensures r.Ok? <==> AllResolve(prices, metricIDs.Keys)
    ensures r.Err? ==> r.error == ForeignKey
    ensures r.Ok? ==> PricesAdded(tx0, r.value, p) && PricesListed(r.value, p, ids, prices)
  {
    var v := tx0.plans[p].version;
    var tx := tx0;
    ids := [];
    for i := 0 to |prices|
      invariant PricesAdded(tx0, tx, p) && PricesListed(tx, p, ids, prices[..i])
      invariant AllResolve(prices[..i], metricIDs.Keys) && tx.nextId !in tx.prices
    {
      var pr := prices[i];
      assert prices[..i + 1] == prices[..i] + [pr];
      if pr.metricCode != "" && pr.metricCode !in metricIDs {
        return Err(ForeignKey), ids;
      }
      var row := NewPrice(p, v, pr, metricIDs);
      PriceListedNext(tx, p, ids, prices[..i], row, pr);
      ids := ids + [tx.nextId];
      tx := InsertPrice(tx, row);
    }
    assert prices[..|prices|] == prices;
    r := Ok(tx);
  }

  method InsertGrants(tx0: Tables, p: Id, es: seq<EntitlementInput>) returns (tx: Tables, ghost ids: seq<Id>)
    requires p in tx0.plans && IsDraft(tx0, tx0.plans[p].version)
    requires GrantsUnder(tx0.grants, p) == map[] && forall id | id in tx0.grants :: id < tx0.nextId
    requires EntitlementsOk(es)
    ensures GrantsAdded(tx0, tx, p) && GrantsListed(tx, p, ids, es)
  {
    var v := tx0.plans[p].version;
    tx, ids := tx0, [];
    for i := 0 to |es|
      invariant GrantsAdded(tx0, tx, p) && GrantsListed(tx, p, ids, es[..i])
      invariant tx.nextId !in tx.grants
    {
      var e := es[i];
      assert es[..i + 1] == es[..i] + [e] && e in es;
      var row := GrantRow(p, v, e.key, e.valueType, e.value);
      KeyFree(tx, p, ids, es, i);
      GrantListedNext(tx, p, ids, es[..i], row, e);
      ids := ids + [tx.nextId];
      tx := InsertGrant(tx, row);
    }
    assert es[..|es|] == es;
  }

  lemma KeyFree(tx: Tables, p: Id, ids: seq<Id>, es: seq<EntitlementInput>, i: nat)
    requires i < |es| && GrantsListed(tx, p, ids, es[..i]) && KeysDistinct(es)
    ensures forall id | id in tx.grants :: !(tx.grants[id].plan == p && tx.grants[id].key == es[i].key)
  {
    forall id | id in tx.grants && tx.grants[id].plan == p
      ensures tx.grants[id].key != es[i].key
    {
      assert id in GrantsUnder(tx.grants, p);
      var j :| 0 <= j < |ids| && ids[j] == id;
      assert GrantIn(tx.grants[id]) == es[j];
    }
  }

  /** Only prices and grants under plan `p` differ. */
  ghost predicate OnlyChildren(a: Tables, b: Tables, p: Id) {
    && b == a.(prices := b.prices, grants := b.grants, nextId := b.nextId) && a.nextId <= b.nextId
    && (forall q | q != p :: PricesUnder(b.prices, q) == PricesUnder(a.prices, q))
    && (forall q | q != p :: GrantsUnder(b.grants, q) == GrantsUnder(a.grants, q))
  }

  lemma OnlyChildrenSameBut(a: Tables, b: Tables, p: Id)
    requires RowsOk(a) && RowsOk(b) && OnlyChildren(a, b, p) && p in a.plans
    ensures SameBut(a, b, a.plans[p].version)
  {
    forall w: Id | w != a.plans[p].version
      ensures RowsOf(b, w) == RowsOf(a, w)
    {
      ChildrenElsewhere(a, b, p, w);
    }
  }

  lemma ChildrenElsewhere(a: Tables, b: Tables, p: Id, w: Id)
    requires RowsOk(a) && RowsOk(b) && p in a.plans && p in b.plans
    requires w != a.plans[p].version && b.plans[p].version == a.plans[p].version
    requires forall q | q != p :: PricesUnder(b.prices, q) == PricesUnder(a.prices, q)
    requires forall q | q != p :: GrantsUnder(b.grants, q) == GrantsUnder(a.grants, q)
    ensures PricesAt(b.prices, w) == PricesAt(a.prices, w) && GrantsAt(b.grants, w) == GrantsAt(a.grants, w)
  {
    PricesElsewhere(a, b, p, w);
    PricesElsewhere(b, a, p, w);
    GrantsElsewhere(a, b, p, w);
    GrantsElsewhere(b, a, p, w);
  }

  lemma PricesElsewhere(a: Tables, b: Tables, p: Id, w: Id)
    requires RowsOk(a) && p in a.plans && w != a.plans[p].version
    requires forall q | q != p :: PricesUnder(b.prices, q) == PricesUnder(a.prices, q)
    ensures forall id | id in PricesAt(a.prices, w) :: id in b.prices && b.prices[id] == a.prices[id]
  {
    forall id | id in PricesAt(a.prices, w)
      ensures id in b.prices && b.prices[id] == a.prices[id]
    {
      assert PriceFits(a, a.prices[id]);
      var q := a.prices[id].plan;
      assert id in PricesUnder(a.prices, q) && PricesUnder(b.prices, q) == PricesUnder(a.prices, q);
      assert id in PricesUnder(b.prices, q) && PricesUnder(b.prices, q)[id] == a.prices[id];
    }
  }

  lemma GrantsElsewhere(a: Tables, b: Tables, p: Id, w: Id)
    requires RowsOk(a) && p in a.plans && w != a.plans[p].version
    requires forall q | q != p :: GrantsUnder(b.grants, q) == GrantsUnder(a.grants, q)
    ensures forall id | id in GrantsAt(a.grants, w) :: id in b.grants && b.grants[id] == a.grants[id]
  {
    forall id | id in GrantsAt(a.grants, w)
      ensures id in b.grants && b.grants[id] == a.grants[id]
    {
      assert GrantFits(a, a.grants[id]);
      var q := a.grants[id].plan;
      assert id in GrantsUnder(a.grants, q) && GrantsUnder(b.grants, q) == GrantsUnder(a.grants, q);
      assert id in GrantsUnder(b.grants, q) && GrantsUnder(b.grants, q)[id] == a.grants[id];
    }
  }

  lemma PricesAddedOnly(a: Tables, b: Tables, p: Id)
    requires PricesAdded(a, b, p)
    ensures OnlyChildren(a, b, p)
  {
    forall q | q != p
      ensures PricesUnder(b.prices, q) == PricesUnder(a.prices, q)
    {
    }
  }

  lemma GrantsAddedOnly(a: Tables, b: Tables, p: Id)
    requires GrantsAdded(a, b, p)
    ensures OnlyChildren(a, b, p)
  {
    forall q | q != p
      ensures GrantsUnder(b.grants, q) == GrantsUnder(a.grants, q)
    {
    }
  }

  lemma PricesAddedFrame(a: Tables, b: Tables, p: Id)
    requires RowsOk(a) && p in a.plans && IsDraft(a, a.plans[p].version) && PricesAdded(a, b, p)
    ensures RowsOk(b) && TouchesOnlyDrafts(a, b)
  {
    RowsStayOk(a, b);
    forall v | 0 <= v < |a.versions| && a.versions[v] != Draft
      ensures RowsOf(b, v) == RowsOf(a, v)
    {
      assert PricesAt(b.prices, v) == PricesAt(a.prices, v);
    }
  }

  lemma PricesAddedKeeps(a: Tables, b: Tables, p: Id)
    requires Invariant(a) && p in a.plans && IsDraft(a, a.plans[p].version)
    requires PricesAdded(a, b, p)
    ensures Invariant(b) && Evolves(a, b) && OnlyChildren(a, b, p)
  {
    PricesAddedFrame(a, b, p);
    DraftChangeKeeps(a, b);
    PricesAddedOnly(a, b, p);
  }

  lemma GrantsAddedFrame(a: Tables, b: Tables, p: Id)
    requires RowsOk(a) && p in a.plans && IsDraft(a, a.plans[p].version) && GrantsAdded(a, b, p)
    ensures RowsOk(b) && TouchesOnlyDrafts(a, b)
  {
    RowsStayOk(a, b);
    forall v | 0 <= v < |a.versions| && a.versions[v] != Draft
      ensures RowsOf(b, v) == RowsOf(a, v)
    {
      assert GrantsAt(b.grants, v) == GrantsAt(a.grants, v);
    }
  }

  lemma GrantsAddedKeeps(a: Tables, b: Tables, p: Id)
    requires Invariant(a) && p in a.plans && IsDraft(a, a.plans[p].version)
    requires GrantsAdded(a, b, p) && GrantKeysUnique(b.grants)
    ensures Invariant(b) && Evolves(a, b) && OnlyChildren(a, b, p)
  {
    GrantsAddedFrame(a, b, p);
    DraftChangeKeeps(a, b);
    GrantsAddedOnly(a, b, p);
  }

  /** The keys of a plan's new grants are distinct because they read back as distinct ones. */
  lemma AddedKeysUnique(a: Tables, b: Tables, p: Id, ids: seq<Id>, es: seq<EntitlementInput>)
    requires GrantKeysUnique(a.grants) && GrantsUnder(a.grants, p) == map[] && GrantsAdded(a, b, p)
    requires GrantsListed(b, p, ids, es) && KeysDistinct(es)
    ensures GrantKeysUnique(b.grants)
  {
    forall i, j | i in b.grants && j in b.grants && i != j
      ensures !(b.grants[i].plan == b.grants[j].plan && b.grants[i].key == b.grants[j].key)
    {
      if b.grants[i].plan == p && b.grants[j].plan == p {
        assert i in GrantsUnder(b.grants, p) && j in GrantsUnder(b.grants, p);
        var x :| 0 <= x < |ids| && ids[x] == i;
        var y :| 0 <= y < |ids| && ids[y] == j;
        assert GrantIn(b.grants[i]) == es[x] && GrantIn(b.grants[j]) == es[y];
        assert x < y || y < x;
      }
    }
  }

  /** The loops shared by replaceCatalogContentTx and replacePlanChildrenTx. */
  method InsertChildren(tx0: Tables, p: Id, plan: PlanInput, metricIDs: map<string, Id>)
    returns (r: Result<Tables, Error>)
    requires Invariant(tx0) && p in tx0.plans && IsDraft(tx0, tx0.plans[p].version)
    requires Indexes(metricIDs, tx0, tx0.plans[p].version)
    requires PricesUnder(tx0.prices, p) == map[] && GrantsUnder(tx0.grants, p) == map[]
    requires HeadReadsAs(tx0.plans[p], plan) && PlanOk(plan, metricIDs.Keys, false)
    ensures r.Ok? <==> AllResolve(plan.prices, metricIDs.Keys)
    ensures r.Err? ==> r.error == ForeignKey
    ensures r.Ok? ==> Invariant(r.value) && Evolves(tx0, r.value) && OnlyChildren(tx0, r.value, p)
    ensures r.Ok? ==> PlanReadsAs(r.value, p, plan)
  {
    ghost var priceIDs, grantIDs;
    r, priceIDs := InsertPrices(tx0, p, plan.prices, metricIDs);
    if r.Err? {
      return;
    }
    var tx1 := r.value;
    PricesAddedKeeps(tx0, tx1, p);
    var tx;
    tx, grantIDs := InsertGrants(tx1, p, plan.entitlements);
    AddedKeysUnique(tx1, tx, p, grantIDs, plan.entitlements);
    GrantsAddedKeeps(tx1, tx, p);
    EvolvesTransitive(tx0, tx1, tx);
    assert PricesListed(tx, p, priceIDs, plan.prices);
    r := Ok(tx);
  }

  lemma ChildrenDropped(a: Tables, b: Tables, c: Tables, p: Id)
    requires b == a.(grants := a.grants - GrantsUnder(a.grants, p).Keys)
    requires c == b.(prices := b.prices - PricesUnder(b.prices, p).Keys)
    ensures OnlyChildren(a, c, p) && PricesUnder(c.prices, p) == map[] && GrantsUnder(c.grants, p) == map[]
  {
  }

  /** The deletions of replacePlanChildrenTx. */
  method DeleteChildren(tx0: Tables, p: Id) returns (tx: Tables)
    requires Invariant(tx0) && p in tx0.plans && IsDraft(tx0, tx0.plans[p].version)
    ensures Invariant(tx) && Evolves(tx0, tx) && OnlyChildren(tx0, tx, p)
    ensures PricesUnder(tx.prices, p) == map[] && GrantsUnder(tx.grants, p) == map[]
  {
    var grants := GrantsUnder(tx0.grants, p).Keys;
    DeleteGrantsKeeps(tx0, grants);
    var tx1 := DeleteGrants(tx0, grants);
    var prices := PricesUnder(tx1.prices, p).Keys;
    DeletePricesKeeps(tx1, prices);
    tx := DeletePrices(tx1, prices);
    ChildrenDropped(tx0, tx1, tx, p);
    EvolvesTransitive(tx0, tx1, tx);
  }
}
