/**
 * The steps of the plan and policy operations on a draft, and what they amount to: which plan a code
 * names, what validating one plan against the stored metrics asks, rewriting a plan's row and children,
 * removing a plan, and setting or removing a single grant.  Each is a step from tables in order to
 * tables in order that no version but the draft can notice.
 */
module CatalogPlans {
  import opened Prelude
  import opened CatalogContent
  import opened CatalogStore
  import opened CatalogReading
  import opened CatalogCloning
  import opened CatalogEditing
  import opened CatalogReplacing
  import opened CatalogDrafts

  /** GetPlanByVersionAndCode: at most one plan of a version bears a code. */
  method FindPlan(db: Tables, v: Id, code: string) returns (p: Option<Id>)
    ensures p.Some? ==> p.value in PlansAt(db.plans, v) && db.plans[p.value].code == code
    ensures p.None? ==> CodeFree(db, v, code)
    ensures p.Some? <==> code in PlanCodes(RowsOf(db, v))
  {
    var found := set q | q in db.plans && db.plans[q].version == v && db.plans[q].code == code;
    if found == {} {
      assert forall q | q in db.plans :: q !in found;
      return None;
    }
    var q :| q in found;
    assert q in PlansAt(db.plans, v);
    p := Some(q);
  }

  /** The map from code to id that replacePlanChildrenTx builds. */
  method IndexMetrics(db: Tables, v: Id) returns (metricIDs: map<string, Id>)
    requires MetricCodesUnique(db.metrics)
    ensures Indexes(metricIDs, db, v) && metricIDs.Keys == MetricCodes(RowsOf(db, v))
  {
    var ms := Query(MetricsAt(db.metrics, v).Keys);
    metricIDs := map[];
    for i := 0 to |ms|
      invariant forall c | c in metricIDs ::
          metricIDs[c] in db.metrics && db.metrics[metricIDs[c]].version == v && db.metrics[metricIDs[c]].code == c
      invariant forall j | 0 <= j < i :: ms[j] in db.metrics && db.metrics[ms[j]].code in metricIDs
    {
      assert ms[i] in ms;
      metricIDs := metricIDs[db.metrics[ms[i]].code := ms[i]];
    }
    forall m | m in db.metrics && db.metrics[m].version == v
      ensures db.metrics[m].code in metricIDs
    {
      assert m in MetricsAt(db.metrics, v);
      var j :| 0 <= j < |ms| && ms[j] == m;
    }
    var r := RowsOf(db, v);
    assert metricIDs.Keys == MetricCodes(r) by {
      forall c | c in metricIDs
        ensures c in MetricCodes(r)
      {
        assert metricIDs[c] in r.metrics;
      }
    }
  }

  /** validatePlanStructureTx: the plan alone, against the version's stored metrics. */
  method ValidatePlanStructure(db: Tables, v: Id, plan: PlanInput) returns (ok: bool)
    requires RowsOk(db) && MetricCodesUnique(db.metrics)
    ensures ok <==> PlanOk(plan, MetricCodes(RowsOf(db, v)), false)
  {
    var r := RowsOf(db, v);
    var ms := Query(r.metrics.Keys);
    var metrics, _ := StoredMetricContent(r, ms);
    StoredMetricsValid(db, v, ms, metrics);
    ok := ValidateCatalog(Content(metrics, [plan]), false);
    OnlyPlan(metrics, plan);
  }

  lemma OnlyPlan(metrics: seq<MetricInput>, plan: PlanInput)
    requires MetricsOk(metrics)
    ensures CatalogOk(Content(metrics, [plan]), false) <==> PlanOk(plan, Codes(metrics), false)
  {
    assert plan in [plan];
  }

  lemma StoredMetricsValid(db: Tables, v: Id, ms: seq<Id>, metrics: seq<MetricInput>)
    requires RowsOk(db) && MetricCodesUnique(db.metrics)
    requires Enumerates(ms, MetricsAt(db.metrics, v).Keys) && |metrics| == |ms|
    requires forall i | 0 <= i < |ms| :: ms[i] in db.metrics && metrics[i] == MetricIn(db.metrics[ms[i]])
    ensures MetricsOk(metrics) && Codes(metrics) == MetricCodes(RowsOf(db, v))
  {
    var r := RowsOf(db, v);
    MetricCodesListed(r.metrics, ms, metrics);
    forall m | m in metrics
      ensures MetricOk(m.code, m.aggregation)
    {
      var i :| 0 <= i < |metrics| && metrics[i] == m;
      assert MetricFits(db, db.metrics[ms[i]]);
    }
    forall i, j | 0 <= i < j < |metrics|
      ensures metrics[i].code != metrics[j].code
    {
      assert ms[i] in ms && ms[j] in ms;
    }
  }

  // ---- UpdatePlan ----

  /** From `a` to `b`, plan `p` got a new row, prices and grants, and nothing else happened. */
  ghost predicate PlanChanged(a: Tables, b: Tables, p: Id, row: PlanRow) {
    && p in a.plans
    && b == a.(plans := a.plans[p := row], prices := b.prices, grants := b.grants, nextId := b.nextId)
    && (forall q | q != p :: PricesUnder(b.prices, q) == PricesUnder(a.prices, q))
    && (forall q | q != p :: GrantsUnder(b.grants, q) == GrantsUnder(a.grants, q))
  }

  function Cleared(a: Tables, p: Id): Tables {
    a.(prices := a.prices - PricesUnder(a.prices, p).Keys, grants := a.grants - GrantsUnder(a.grants, p).Keys)
  }

  lemma ClearedKeeps(a: Tables, p: Id)
    requires Invariant(a) && p in a.plans && IsDraft(a, a.plans[p].version)
    ensures Invariant(Cleared(a, p)) && Evolves(a, Cleared(a, p))
    ensures PricesUnder(Cleared(a, p).prices, p) == map[] && GrantsUnder(Cleared(a, p).grants, p) == map[]
  {
    var b := DeleteGrants(a, GrantsUnder(a.grants, p).Keys);
    DeleteGrantsKeeps(a, GrantsUnder(a.grants, p).Keys);
    var c := DeletePrices(b, PricesUnder(b.prices, p).Keys);
    DeletePricesKeeps(b, PricesUnder(b.prices, p).Keys);
    ChildrenDropped(a, b, c, p);
    EvolvesTransitive(a, b, c);
    assert c == Cleared(a, p);
  }

  lemma ChangeRowFits(a: Tables, b: Tables, p: Id, row: PlanRow)
    requires RowsOk(a) && p in a.plans && b == a.(plans := a.plans[p := row])
    requires PricesUnder(a.prices, p) == map[] && GrantsUnder(a.grants, p) == map[]
    requires row.version == a.plans[p].version && PlanHeadOk(row.code, row.interval, row.currency)
    ensures RowsOk(b)
  {
    forall id | id in b.metrics
      ensures MetricFits(b, b.metrics[id])
    {
      assert MetricFits(a, a.metrics[id]);
    }
    forall id | id in b.plans
      ensures id < b.nextId && PlanFits(b, b.plans[id])
    {
      assert PlanFits(a, a.plans[id]);
    }
    forall id | id in b.prices
      ensures PriceFits(b, b.prices[id])
    {
      assert PriceFits(a, a.prices[id]) && id !in PricesUnder(a.prices, p);
    }
    forall id | id in b.grants
      ensures GrantFits(b, b.grants[id])
    {
      assert GrantFits(a, a.grants[id]) && id !in GrantsUnder(a.grants, p);
    }
  }

  lemma ChangeRowFrame(a: Tables, b: Tables, p: Id, row: PlanRow)
    requires p in a.plans && IsDraft(a, a.plans[p].version) && b == a.(plans := a.plans[p := row])
    requires row.version == a.plans[p].version
    ensures TouchesOnlyDrafts(a, b)
  {
    forall v | 0 <= v < |a.versions| && a.versions[v] != Draft
      ensures RowsOf(b, v) == RowsOf(a, v)
    {
      assert PlansAt(b.plans, v) == PlansAt(a.plans, v);
    }
  }

  lemma ChangeRowKeeps(a: Tables, p: Id, row: PlanRow)
    requires Invariant(a) && p in a.plans && IsDraft(a, a.plans[p].version)
    requires PricesUnder(a.prices, p) == map[] && GrantsUnder(a.grants, p) == map[]
    requires row.version == a.plans[p].version && row.code == a.plans[p].code
    requires PlanHeadOk(row.code, row.interval, row.currency)
    ensures Invariant(a.(plans := a.plans[p := row])) && Evolves(a, a.(plans := a.plans[p := row]))
  {
    var b := a.(plans := a.plans[p := row]);
    ChangeRowFits(a, b, p, row);
    ChangeRowFrame(a, b, p, row);
    DraftChangeKeeps(a, b);
  }

  lemma RewriteKeeps(a: Tables, p: Id, row: PlanRow)
    requires Invariant(a) && p in a.plans && IsDraft(a, a.plans[p].version)
    requires row.version == a.plans[p].version && row.code == a.plans[p].code
    requires PlanHeadOk(row.code, row.interval, row.currency)
    ensures var b := Cleared(a, p).(plans := a.plans[p := row]);
            && Invariant(b) && Evolves(a, b) && PlanChanged(a, b, p, row)
            && PricesUnder(b.prices, p) == map[] && GrantsUnder(b.grants, p) == map[]
  {
    var c := Cleared(a, p);
    ClearedKeeps(a, p);
    ChangeRowKeeps(c, p, row);
    EvolvesTransitive(a, c, c.(plans := a.plans[p := row]));
    ClearedOthers(a, p);
  }

  lemma ClearedOthers(a: Tables, p: Id)
    ensures forall q | q != p :: PricesUnder(Cleared(a, p).prices, q) == PricesUnder(a.prices, q)
    ensures forall q | q != p :: GrantsUnder(Cleared(a, p).grants, q) == GrantsUnder(a.grants, q)
  {
  }

  /**
   * The row is rewritten first, while the old prices, perhaps in another currency, are still there;
   * once they are deleted the tables are in order again.
   */
  method RewritePlan(tx0: Tables, p: Id, row: PlanRow) returns (tx: Tables)
    requires Invariant(tx0) && p in tx0.plans && IsDraft(tx0, tx0.plans[p].version)
    requires row.version == tx0.plans[p].version && row.code == tx0.plans[p].code
    requires PlanHeadOk(row.code, row.interval, row.currency)
    ensures Invariant(tx) && Evolves(tx0, tx) && PlanChanged(tx0, tx, p, row)
    ensures PricesUnder(tx.prices, p) == map[] && GrantsUnder(tx.grants, p) == map[]
  {
    var tx1 := tx0.(plans := tx0.plans[p := row]);
    var tx2 := DeleteGrants(tx1, GrantsUnder(tx1.grants, p).Keys);
    tx := DeletePrices(tx2, PricesUnder(tx2.prices, p).Keys);
    RewriteKeeps(tx0, p, row);
  }

  lemma ChangedWithChildren(a: Tables, b: Tables, c: Tables, p: Id, row: PlanRow)
    requires PlanChanged(a, b, p, row) && OnlyChildren(b, c, p)
    ensures PlanChanged(a, c, p, row)
  {
  }

  // ---- DeletePlan ----

  lemma ClearedCanGo(c: Tables, p: Id)
    requires RowsOk(c) && p in c.plans && IsDraft(c, c.plans[p].version)
    requires forall s | s in c.subscriptions :: SubscriptionOk(c, s)
    requires PricesUnder(c.prices, p) == map[] && GrantsUnder(c.grants, p) == map[]
    ensures CanDeletePlans(c, {p})
  {
    forall s | s in c.subscriptions
      ensures c.subscriptions[s].plan != p
    {
      assert SubscriptionOk(c, s);
    }
    forall r | r in c.prices
      ensures c.prices[r].plan != p
    {
      assert r !in PricesUnder(c.prices, p);
    }
    forall g | g in c.grants
      ensures c.grants[g].plan != p
    {
      assert g !in GrantsUnder(c.grants, p);
    }
  }

  lemma RemovePlanKeeps(a: Tables, p: Id)
    requires Invariant(a) && p in a.plans && IsDraft(a, a.plans[p].version)
    ensures CanDeletePlans(Cleared(a, p), {p})
    ensures var b := DeletePlans(Cleared(a, p), {p}); Invariant(b) && Evolves(a, b)
  {
    ClearedKeeps(a, p);
    var c := Cleared(a, p);
    ClearedCanGo(c, p);
    DeletePlansKeeps(c, {p});
    EvolvesTransitive(a, c, DeletePlans(c, {p}));
  }

  method RemovePlan(tx0: Tables, p: Id) returns (tx: Tables)
    requires Invariant(tx0) && p in tx0.plans && IsDraft(tx0, tx0.plans[p].version)
    ensures Invariant(tx) && Evolves(tx0, tx)
    ensures tx == Cleared(tx0, p).(plans := tx0.plans - {p})
  {
    RemovePlanKeeps(tx0, p);
    var tx1 := DeleteGrants(tx0, GrantsUnder(tx0.grants, p).Keys);
    var tx2 := DeletePrices(tx1, PricesUnder(tx1.prices, p).Keys);
    tx := DeletePlans(tx2, {p});
  }

  // ---- policies ----

  /** The grants under plan `p` are as before, but for `key`, which now reads `e`, or nothing. */
  ghost predicate GrantChanged(a: Tables, b: Tables, p: Id, key: string, e: Option<EntitlementInput>) {
    && b == a.(grants := b.grants, nextId := b.nextId)
    && (forall g | g in a.grants && !(a.grants[g].plan == p && a.grants[g].key == key) ::
          g in b.grants && b.grants[g] == a.grants[g])
    && (forall g | g in b.grants && !(b.grants[g].plan == p && b.grants[g].key == key) ::
          g in a.grants && b.grants[g] == a.grants[g])
    && match e
       case Some(x) => exists g ::
         g in b.grants && b.grants[g].plan == p && b.grants[g].key == key && GrantIn(b.grants[g]) == x
       case None => forall g | g in b.grants :: !(b.grants[g].plan == p && b.grants[g].key == key)
  }

  method FindGrant(db: Tables, p: Id, key: string) returns (g: Option<Id>)
    ensures g.Some? ==> g.value in db.grants && db.grants[g.value].plan == p && db.grants[g.value].key == key
    ensures g.None? ==> forall k | k in db.grants :: !(db.grants[k].plan == p && db.grants[k].key == key)
  {
    var found := set k | k in db.grants && db.grants[k].plan == p && db.grants[k].key == key;
    if found == {} {
      assert forall k | k in db.grants :: k !in found;
      return None;
    }
    var k :| k in found;
    g := Some(k);
  }

  lemma ReplaceGrantFits(a: Tables, b: Tables, g: Id, row: GrantRow)
    requires RowsOk(a) && g in a.grants && b == a.(grants := a.grants[g := row]) && GrantFits(a, row)
    requires row.version == a.grants[g].version && IsDraft(a, row.version)
    ensures RowsOk(b) && TouchesOnlyDrafts(a, b)
  {
    RowsStayOk(a, b);
    forall v | 0 <= v < |a.versions| && a.versions[v] != Draft
      ensures RowsOf(b, v) == RowsOf(a, v)
    {
      assert GrantsAt(b.grants, v) == GrantsAt(a.grants, v);
    }
  }

  lemma ReplaceGrantKeeps(a: Tables, g: Id, valueType: ValueType, value: string)
    requires Invariant(a) && g in a.grants && EntitlementOk(a.grants[g].key, valueType, value)
    requires a.grants[g].plan in a.plans && IsDraft(a, a.plans[a.grants[g].plan].version)
    ensures var b := a.(grants := a.grants[g := a.grants[g].(valueType := valueType, value := value)]);
            Invariant(b) && Evolves(a, b)
  {
    var row := a.grants[g].(valueType := valueType, value := value);
    var b := a.(grants := a.grants[g := row]);
    assert GrantFits(a, a.grants[g]);
    ReplaceGrantFits(a, b, g, row);
    DraftChangeKeeps(a, b);
  }

  lemma ReplaceGrantChanges(a: Tables, g: Id, p: Id, e: EntitlementInput)
    requires g in a.grants && a.grants[g].plan == p && a.grants[g].key == e.key
    ensures var b := a.(grants := a.grants[g := a.grants[g].(valueType := e.valueType, value := e.value)]);
            GrantChanged(a, b, p, e.key, Some(e))
  {
    var b := a.(grants := a.grants[g := a.grants[g].(valueType := e.valueType, value := e.value)]);
    assert g in b.grants && GrantIn(b.grants[g]) == e;
  }

  lemma InsertGrantChanges(a: Tables, row: GrantRow)
    requires AcceptsGrant(a, row) && a.nextId !in a.grants
    ensures GrantChanged(a, InsertGrant(a, row), row.plan, row.key, Some(GrantIn(row)))
  {
    assert InsertGrant(a, row).grants[a.nextId] == row;
  }

  /** UpsertEntitlementGrant: inserts, or on a conflict over (plan, key) rewrites the row in place. */
  method UpsertGrant(tx0: Tables, p: Id, e: EntitlementInput) returns (tx: Tables)
    requires Invariant(tx0) && p in tx0.plans && IsDraft(tx0, tx0.plans[p].version)
    requires EntitlementOk(e.key, e.valueType, e.value)
    ensures Invariant(tx) && Evolves(tx0, tx) && GrantChanged(tx0, tx, p, e.key, Some(e))
  {
    var g := FindGrant(tx0, p, e.key);
    if g.Some? {
      ReplaceGrantKeeps(tx0, g.value, e.valueType, e.value);
      tx := tx0.(grants := tx0.grants[g.value := tx0.grants[g.value].(valueType := e.valueType, value := e.value)]);
      ReplaceGrantChanges(tx0, g.value, p, e);
    } else {
      var row := GrantRow(p, tx0.plans[p].version, e.key, e.valueType, e.value);
      InsertGrantKeeps(tx0, row);
      InsertGrantChanges(tx0, row);
      tx := InsertGrant(tx0, row);
    }
  }

  /** DeleteEntitlementGrantByKey; the second result tells whether a row was deleted. */
  method DeleteGrantByKey(tx0: Tables, p: Id, key: string) returns (tx: Tables, deleted: bool)
    requires Invariant(tx0) && p in tx0.plans && IsDraft(tx0, tx0.plans[p].version)
    ensures Invariant(tx) && Evolves(tx0, tx) && GrantChanged(tx0, tx, p, key, None)
    ensures deleted <==> exists g :: g in tx0.grants && tx0.grants[g].plan == p && tx0.grants[g].key == key
  {
    var g := FindGrant(tx0, p, key);
    if g.None? {
      DeleteGrantsKeeps(tx0, {});
      assert DeleteGrants(tx0, {}) == tx0;
      return tx0, false;
    }
    DeleteGrantsKeeps(tx0, {g.value});
    tx := DeleteGrants(tx0, {g.value});
    deleted := true;
  }
}
