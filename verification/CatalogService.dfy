/**
 * The catalogue and subscription operations of the service, each one transaction over the tables of a
 * tenant: it either commits its whole effect or leaves everything as it was.  Every operation keeps the
 * store invariant and lets the store evolve; each says exactly when it succeeds, what it then changes,
 * and, where the source tells errors apart, which error it gives otherwise.
 */
module CatalogService {
  import opened Prelude
  import opened CatalogContent
  import opened CatalogStore
  import opened CatalogReading
  import opened CatalogOrders
  import opened CatalogCloning
  import opened CatalogEditing
  import opened CatalogReplacing
  import opened CatalogDrafts
  import opened CatalogPlans
  import opened Entitlements

  // ---- state transitions of versions ----

  lemma TransitionFits(a: Tables, v: Id, to: CatalogState)
    requires RowsOk(a) && v < |a.versions|
    ensures RowsOk(a.(versions := a.versions[v := to]))
  {
    var b := a.(versions := a.versions[v := to]);
    assert forall id | id in a.metrics :: MetricFits(a, a.metrics[id]) && MetricFits(b, a.metrics[id]);
    assert forall id | id in a.plans :: PlanFits(a, a.plans[id]) && PlanFits(b, a.plans[id]);
    assert forall id | id in a.prices :: PriceFits(a, a.prices[id]) && PriceFits(b, a.prices[id]);
    assert forall id | id in a.grants :: GrantFits(a, a.grants[id]) && GrantFits(b, a.grants[id]);
  }

  lemma TransitionEvolves(a: Tables, v: Id, to: CatalogState)
    requires v < |a.versions| && Rank(to) == Rank(a.versions[v]) + 1
    ensures Evolves(a, a.(versions := a.versions[v := to]))
  {
  }

  lemma TransitionKeeps(a: Tables, v: Id, to: CatalogState)
    requires Invariant(a) && v < |a.versions| && Rank(to) == Rank(a.versions[v]) + 1
    requires to == Validated ==> Complete(a, v)
    ensures var b := a.(versions := a.versions[v := to]); Invariant(b) && Evolves(a, b)
  {
    var b := a.(versions := a.versions[v := to]);
    TransitionFits(a, v, to);
    TransitionEvolves(a, v, to);
    forall w | 0 <= w < |b.versions| && b.versions[w] != Draft
      ensures Complete(b, w)
    {
      CompleteUnder(a, v, to, w);
    }
    forall s | s in b.subscriptions
      ensures SubscriptionOk(b, s)
    {
      SubscriptionUnder(a, v, to, s);
    }
  }

  lemma SubscriptionUnder(a: Tables, v: Id, to: CatalogState, s: Id)
    requires v < |a.versions| && Rank(to) == Rank(a.versions[v]) + 1
    requires s in a.subscriptions && SubscriptionOk(a, s)
    ensures SubscriptionOk(a.(versions := a.versions[v := to]), s)
  {
  }

  lemma CompleteUnder(a: Tables, v: Id, to: CatalogState, w: Id)
    requires v < |a.versions| && Rank(to) == Rank(a.versions[v]) + 1 && (to == Validated ==> Complete(a, v))
    requires forall u | 0 <= u < |a.versions| && a.versions[u] != Draft :: Complete(a, u)
    requires w < |a.versions| && a.versions[v := to][w] != Draft
    ensures Complete(a.(versions := a.versions[v := to]), w)
  {
    assert Complete(a, w);
  }

  /** The publish-time rules, run on the stored content, ask exactly that the version be complete. */
  lemma GateAsksForCompleteness(db: Tables, v: Id, c: Content)
    requires Invariant(db) && ReadsAs(RowsOf(db, v), c)
    ensures CatalogOk(c, true) <==> Complete(db, v)
  {
    var l :| Lists(l, RowsOf(db, v)) && ContentOf(RowsOf(db, v), l) == c;
    VersionOfStore(db, v);
    StoredContentOk(RowsOf(db, v), l);
    CompletenessOfStore(db, v);
  }

  lemma CompleteMeans(db: Tables, v: Id)
    ensures Complete(db, v) <==>
            && (exists p :: p in db.plans && db.plans[p].version == v)
            && (forall p | p in db.plans && db.plans[p].version == v ::
                 exists id :: id in db.prices && db.prices[id].plan == p)
  {
    assert (exists p :: p in db.plans && db.plans[p].version == v) ==> PlansAt(db.plans, v) != map[] by {
      if p :| p in db.plans && db.plans[p].version == v {
        assert p in PlansAt(db.plans, v);
      }
    }
    assert PlansAt(db.plans, v) != map[] ==> exists p :: p in db.plans && db.plans[p].version == v by {
      if p :| p in PlansAt(db.plans, v) {
        assert p in db.plans && db.plans[p].version == v;
      }
    }
    forall p | p in db.plans && db.plans[p].version == v
      ensures p in PlansAt(db.plans, v)
      ensures PricesUnder(db.prices, p) != map[] <==> exists id :: id in db.prices && db.prices[id].plan == p
    {
      PricedMeans(db, p);
    }
  }

  lemma PricedMeans(db: Tables, p: Id)
    ensures PricesUnder(db.prices, p) != map[] <==> exists id :: id in db.prices && db.prices[id].plan == p
  {
    if id :| id in db.prices && db.prices[id].plan == p {
      assert id in PricesUnder(db.prices, p);
    }
    if id :| id in PricesUnder(db.prices, p) {
      assert id in db.prices && db.prices[id].plan == p;
    }
  }

  // ---- subscriptions ----

  predicate ExternalIdTaken(db: Tables, externalId: string) {
    exists s :: s in db.subscriptions && db.subscriptions[s].externalId == externalId
  }

  /** Nothing but subscriptions changed. */
  predicate OnlySubscriptions(a: Tables, b: Tables) {
    b == a.(subscriptions := b.subscriptions, nextId := b.nextId) && a.nextId <= b.nextId
  }

  lemma OnlySubscriptionsFit(a: Tables, b: Tables)
    requires RowsOk(a) && OnlySubscriptions(a, b)
    ensures RowsOk(b) && forall w | Complete(a, w) :: Complete(b, w)
  {
    RowsStayOk(a, b);
  }

  lemma OnlySubscriptionsKeeps(a: Tables, b: Tables)
    requires Invariant(a) && OnlySubscriptions(a, b)
    requires forall s | s in b.subscriptions :: SubscriptionOk(b, s)
    requires forall s | s in a.subscriptions ::
               s in b.subscriptions && SamePins(a.subscriptions[s], b.subscriptions[s])
    ensures Invariant(b) && Evolves(a, b)
  {
    OnlySubscriptionsFit(a, b);
    assert b.versions == a.versions;
    forall w | 0 <= w < |b.versions| && b.versions[w] != Draft
      ensures Complete(b, w)
    {
      assert Complete(a, w);
    }
  }

  function Subscribed(a: Tables, externalId: string, customer: string, v: Id, p: Id): Tables {
    a.(subscriptions := a.subscriptions[a.nextId := Subscription(externalId, customer, v, p, true)],
       nextId := a.nextId + 1)
  }

  /** One subscription was added, and nothing else but the counter of ids changed. */
  predicate OnlyNew(a: Tables, b: Tables, s: Id, sub: Subscription) {
    && s in b.subscriptions && b.subscriptions[s] == sub
    && b == a.(subscriptions := a.subscriptions[s := b.subscriptions[s]], nextId := a.nextId + 1)
  }

  lemma SubscribedOnlyNew(a: Tables, externalId: string, customer: string, v: Id, p: Id)
    ensures OnlyNew(a, Subscribed(a, externalId, customer, v, p), a.nextId,
                    Subscription(externalId, customer, v, p, true))
  {
  }

  lemma SubscriptionsStayOk(a: Tables, externalId: string, customer: string, v: Id, p: Id)
    requires forall s | s in a.subscriptions :: SubscriptionOk(a, s)
    requires v < |a.versions| && a.versions[v] == Published && p in a.plans && a.plans[p].version == v
    ensures a.nextId !in a.subscriptions
    ensures var b := Subscribed(a, externalId, customer, v, p);
            && (forall s | s in b.subscriptions :: SubscriptionOk(b, s))
            && (forall s | s in a.subscriptions :: s in b.subscriptions && b.subscriptions[s] == a.subscriptions[s])
  {
    var b := Subscribed(a, externalId, customer, v, p);
    forall s | s in a.subscriptions
      ensures s < a.nextId && SubscriptionOk(b, s)
    {
      assert SubscriptionOk(a, s);
    }
  }

  lemma SubscribeKeeps(a: Tables, externalId: string, customer: string, v: Id, p: Id)
    requires Invariant(a) && v < |a.versions| && a.versions[v] == Published && p in PlansAt(a.plans, v)
    ensures var b := Subscribed(a, externalId, customer, v, p); Invariant(b) && Evolves(a, b)
    ensures a.nextId !in a.subscriptions
  {
    SubscriptionsStayOk(a, externalId, customer, v, p);
    OnlySubscriptionsKeeps(a, Subscribed(a, externalId, customer, v, p));
  }

  function Terminated(a: Tables, s: Id): Tables
    requires s in a.subscriptions
  {
    a.(subscriptions := a.subscriptions[s := a.subscriptions[s].(active := false)])
  }

  lemma TerminateKeeps(a: Tables, s: Id)
    requires Invariant(a) && s in a.subscriptions
    ensures Invariant(Terminated(a, s)) && Evolves(a, Terminated(a, s))
  {
    var b := Terminated(a, s);
    forall t | t in b.subscriptions
      ensures SubscriptionOk(b, t)
    {
      assert SubscriptionOk(a, t);
    }
    OnlySubscriptionsKeeps(a, b);
  }

  /** A terminated subscription stays so in every later state of a run: terminating it again is a conflict. */
  lemma TerminatedForGood(run: seq<ServiceState>, i: nat, j: nat, s: Id)
    requires ServiceRun(run) && i <= j < |run|
    requires s in run[i].db.subscriptions && !run[i].db.subscriptions[s].active
    ensures s in run[j].db.subscriptions && !run[j].db.subscriptions[s].active
    ensures run[j].db.subscriptions[s] == run[i].db.subscriptions[s]
  {
    var dbs := seq(|run|, k requires 0 <= k < |run| => run[k].db);
    RunEvolves(dbs, i, j);
    assert Evolves(dbs[i], dbs[j]) && dbs[i] == run[i].db && dbs[j] == run[j].db;
  }

  /** What a plan operation accepts: it is checked against the version that the draft starts from. */
  predicate PlanAcceptable(db: Tables, plan: PlanInput) {
    && PlanOk(plan, MetricCodes(BaseRows(db)), false)
    && AllResolve(plan.prices, MetricCodes(BaseRows(db)))
  }

  function ActiveOf(db: Tables, customer: string): set<Id> {
    set s | s in db.subscriptions && db.subscriptions[s].customer == customer && db.subscriptions[s].active
  }

  /** A call of one of the operations. */
  datatype Request =
    | CreateVersion(from: Option<Id>)
    | ReplaceVersion(version: Id, content: Content)
    | ValidateVersion(version: Id)
    | PublishVersion(version: Id, canPublish: bool)
    | RetireVersion(version: Id)
    | CreateOnePlan(plan: PlanInput)
    | UpdateOnePlan(code: string, plan: PlanInput)
    | DeleteOnePlan(code: string)
    | SetPolicy(code: string, key: string, policy: EntitlementInput)
    | DeletePolicy(code: string, key: string)
    | Subscribe(blocked: bool, customers: set<string>, externalId: string, customer: string,
                pinned: Option<Id>, code: string)
    | Terminate(subscription: Id)
    | SetOverride(subscription: Id, key: string, row: OverrideRow)
    | DeleteOverride(subscription: Id, key: string)

  datatype Snapshot = Snapshot(subscription: Id, version: Id, entitlements: map<string, Evaluated>)

  lemma LongerRun(run: seq<ServiceState>, next: ServiceState)
    requires ServiceRun(run) && run != [] && Invariant(next.db) && Evolves(run[|run| - 1].db, next.db)
    ensures ServiceRun(run + [next])
  {
    var longer := run + [next];
    forall k | 0 <= k < |longer| - 1
      ensures Evolves(longer[k].db, longer[k + 1].db)
    {
      if k < |run| - 1 {
        assert longer[k] == run[k] && longer[k + 1] == run[k + 1];
      } else {
        assert longer[k] == run[|run| - 1] && longer[k + 1] == next;
      }
    }
    forall k | 0 <= k < |longer|
      ensures Invariant(longer[k].db)
    {
      assert longer[k] == if k < |run| then run[k] else next;
    }
  }

  class Service {
    var db: Tables
    var overrides: Overrides

    constructor ()
      ensures db == EMPTY && overrides == map[] && Invariant(db)
    {
      db, overrides := EMPTY, map[];
    }

    method CreateCatalogVersion(from: Option<Id>) returns (r: Result<Id, Error>)
      requires Invariant(db)
      modifies this`db
      ensures Invariant(db) && Evolves(old(db), db)
      ensures r.Ok? <==> (from.Some? ==> from.value < |old(db).versions|)
      ensures r.Ok? ==> DraftMade(old(db), db, r.value, from)
      ensures r.Err? ==> r.error == NotFound && db == old(db)
    {
      if from.Some? && from.value >= |db.versions| {
        return Err(NotFound);
      }
      var tx, v := CreateDraft(db, from);
      db := tx;
      r := Ok(v);
    }

    method ReplaceCatalogContent(v: Id, c: Content) returns (r: Result<Id, Error>)
      requires Invariant(db)
      modifies this`db
      ensures Invariant(db) && Evolves(old(db), db)
      ensures r.Ok? <==> CatalogOk(c, false) && IsDraft(old(db), v) && AllPlansResolve(c.plans, Codes(c.metrics))
      ensures r.Ok? ==> r.value == v && SameBut(old(db), db, v) && ReadsOnlyAs(RowsOf(db, v), StoredForm(c))
      ensures r.Err? ==> db == old(db)
      ensures r.Err? ==> r.error == if !CatalogOk(c, false) then Invalid
                                    else if v >= |old(db).versions| then NotFound
                                    else if old(db).versions[v] != Draft then Conflict
                                    else ForeignKey
    {
      var ok := ValidateCatalog(c, false);
      if !ok {
        return Err(Invalid);
      }
      if v >= |db.versions| {
        return Err(NotFound);
      }
      if db.versions[v] != Draft {
        return Err(Conflict);
      }
      var tx := ReplaceContent(db, v, c);
      if tx.Err? {
        return Err(tx.error);
      }
      db := tx.value;
      r := Ok(v);
    }

    /** draft -> validated, once the stored content passes the publish-time rules. */
    method ValidateCatalogVersion(v: Id) returns (r: Result<Id, Error>)
      requires Invariant(db)
      modifies this`db
      ensures Invariant(db) && Evolves(old(db), db)
      ensures r.Ok? <==> IsDraft(old(db), v) && Complete(old(db), v)
      ensures r.Ok? <==> v < |old(db).versions| && old(db).versions[v] == Draft
                         && (exists p :: p in old(db).plans && old(db).plans[p].version == v)
                         && (forall p | p in old(db).plans && old(db).plans[p].version == v ::
                               exists id :: id in old(db).prices && old(db).prices[id].plan == p)
      ensures r.Ok? ==> r.value == v && db == old(db).(versions := old(db).versions[v := Validated])
      ensures r.Err? ==> db == old(db)
      ensures r.Err? ==> r.error == if v >= |old(db).versions| then NotFound
                                    else if old(db).versions[v] != Draft then InvalidTransition
                                    else Invalid
    {
      CompleteMeans(db, v);
      if v >= |db.versions| {
        return Err(NotFound);
      }
      var next := TransitionCatalog(db.versions[v], Validated);
      if next.None? {
        return Err(InvalidTransition);
      }
      var c := StoredContent(RowsOf(db, v));
      GateAsksForCompleteness(db, v, c);
      var ok := ValidateCatalog(c, true);
      if !ok {
        return Err(Invalid);
      }
      TransitionKeeps(db, v, next.value);
      db := db.(versions := db.versions[v := next.value]);
      r := Ok(v);
    }

    /** validated -> published, if the provider's lifecycle state allows publishing. */
    method PublishCatalogVersion(v: Id, canPublish: bool) returns (r: Result<Id, Error>)
      requires Invariant(db)
      modifies this`db
      ensures Invariant(db) && Evolves(old(db), db)
      ensures r.Ok? <==> v < |old(db).versions| && old(db).versions[v] == Validated && canPublish
      ensures r.Ok? ==> r.value == v && db == old(db).(versions := old(db).versions[v := Published])
      ensures r.Err? ==> db == old(db)
      ensures r.Err? ==> r.error == if v >= |old(db).versions| then NotFound
                                    else if old(db).versions[v] != Validated then InvalidTransition
                                    else NotWritable
    {
      if v >= |db.versions| {
        return Err(NotFound);
      }
      var next := TransitionCatalog(db.versions[v], Published);
      if next.None? {
        return Err(InvalidTransition);
      }
      if !canPublish {
        return Err(NotWritable);
      }
      TransitionKeeps(db, v, next.value);
      db := db.(versions := db.versions[v := next.value]);
      r := Ok(v);
    }

    method RetireCatalogVersion(v: Id) returns (r: Result<Id, Error>)
      requires Invariant(db)
      modifies this`db
      ensures Invariant(db) && Evolves(old(db), db)
      ensures r.Ok? <==> v < |old(db).versions| && old(db).versions[v] == Published
      ensures r.Ok? ==> r.value == v && db == old(db).(versions := old(db).versions[v := Retired])
      ensures r.Err? ==> db == old(db)
      ensures r.Err? ==> r.error == if v >= |old(db).versions| then NotFound else InvalidTransition
    {
      if v >= |db.versions| {
        return Err(NotFound);
      }
      var next := TransitionCatalog(db.versions[v], Retired);
      if next.None? {
        return Err(InvalidTransition);
      }
      TransitionKeeps(db, v, next.value);
      db := db.(versions := db.versions[v := next.value]);
      r := Ok(v);
    }

    /** `draft` and `v` are the tables and the version once the draft to edit was ensured. */
    method CreatePlan(plan: PlanInput) returns (r: Result<Id, Error>, ghost draft: Tables, ghost v: Id)
      requires Invariant(db)
      modifies this`db
      ensures Invariant(db) && Evolves(old(db), db)
      ensures r.Ok? <==> plan.code !in PlanCodes(BaseRows(old(db))) && PlanAcceptable(old(db), plan)
      ensures r.Ok? ==> DraftEnsured(old(db), draft, v) && PlanAdded(draft, db, r.value, NewPlan(v, plan))
      ensures r.Ok? ==> PlanReadsAs(db, r.value, plan)
      ensures r.Err? ==> db == old(db)
      ensures r.Err? ==> r.error == if plan.code in PlanCodes(BaseRows(old(db))) then Conflict
                                    else if !PlanOk(plan, MetricCodes(BaseRows(old(db))), false) then Invalid
                                    else ForeignKey
    {
      var tx, d := EnsureDraft(db);
      draft, v := tx, d;
      DraftCodes(db, tx, d);
      var existing := FindPlan(tx, d, plan.code);
      if existing.Some? {
        return Err(Conflict), draft, v;
      }
      var ok := ValidatePlanStructure(tx, d, plan);
      if !ok {
        return Err(Invalid), draft, v;
      }
      var metricIDs := IndexMetrics(tx, d);
      var done, p := InsertWholePlan(tx, d, plan, metricIDs);
      if done.Err? {
        return Err(done.error), draft, v;
      }
      EvolvesTransitive(db, tx, done.value);
      db := done.value;
      r := Ok(p);
    }

    /** The plan row keeps its id; its code comes from the path. */
    method UpdatePlan(code: string, input: PlanInput) returns (r: Result<Id, Error>, ghost draft: Tables, ghost v: Id)
      requires Invariant(db)
      modifies this`db
      ensures Invariant(db) && Evolves(old(db), db)
      ensures r.Ok? <==> (input.code == "" || input.code == code) && code in PlanCodes(BaseRows(old(db)))
                         && PlanAcceptable(old(db), input.(code := code))
      ensures r.Ok? ==> DraftEnsured(old(db), draft, v) && r.value in PlansAt(draft.plans, v)
                        && draft.plans[r.value].code == code
      ensures r.Ok? ==> PlanChanged(draft, db, r.value, NewPlan(v, input.(code := code)))
      ensures r.Ok? ==> PlanReadsAs(db, r.value, input.(code := code))
      ensures r.Err? ==> db == old(db)
    {
      draft, v := db, 0;
      if input.code != "" && input.code != code {
        return Err(Invalid), draft, v;
      }
      var plan := input.(code := code);
      var tx, d := EnsureDraft(db);
      draft, v := tx, d;
      DraftCodes(db, tx, d);
      var existing := FindPlan(tx, d, code);
      if existing.None? {
        return Err(NotFound), draft, v;
      }
      var ok := ValidatePlanStructure(tx, d, plan);
      if !ok {
        return Err(Invalid), draft, v;
      }
      var done := RewriteWithChildren(tx, d, existing.value, plan);
      if done.Err? {
        return Err(done.error), draft, v;
      }
      EvolvesTransitive(db, tx, done.value);
      db := done.value;
      r := Ok(existing.value);
    }

    /** Removes the plan from the draft, which is made first if there is none. */
    method DeletePlan(code: string) returns (r: Result<Id, Error>, ghost draft: Tables, ghost v: Id)
      requires Invariant(db)
      modifies this`db
      ensures Invariant(db) && Evolves(old(db), db)
      ensures r.Ok? <==> code in PlanCodes(BaseRows(old(db)))
      ensures r.Ok? ==> DraftEnsured(old(db), draft, v) && r.value in PlansAt(draft.plans, v)
                        && draft.plans[r.value].code == code
      ensures r.Ok? ==> db == Cleared(draft, r.value).(plans := draft.plans - {r.value})
      ensures r.Ok? ==> (forall id :: id in db.prices <==> id in draft.prices && draft.prices[id].plan != r.value)
                        && (forall id :: id in db.grants <==> id in draft.grants && draft.grants[id].plan != r.value)
      ensures r.Err? ==> r.error == NotFound && db == old(db)
    {
      var tx, d := EnsureDraft(db);
      draft, v := tx, d;
      DraftCodes(db, tx, d);
      var existing := FindPlan(tx, d, code);
      if existing.None? {
        return Err(NotFound), draft, v;
      }
      var done := RemovePlan(tx, existing.value);
      EvolvesTransitive(db, tx, done);
      db := done;
      r := Ok(existing.value);
    }

    method SetPlanEntitlement(planCode: string, key: string, input: EntitlementInput)
      returns (r: Result<Id, Error>, ghost draft: Tables, ghost v: Id)
      requires Invariant(db)
      modifies this`db
      ensures Invariant(db) && Evolves(old(db), db)
      ensures r.Ok? <==> (input.key == "" || input.key == key) && EntitlementOk(key, input.valueType, input.value)
                         && planCode in PlanCodes(BaseRows(old(db)))
      ensures r.Ok? ==> DraftEnsured(old(db), draft, v) && r.value in PlansAt(draft.plans, v)
                        && draft.plans[r.value].code == planCode
      ensures r.Ok? ==> GrantChanged(draft, db, r.value, key, Some(input.(key := key)))
      ensures r.Err? ==> db == old(db)
    {
      draft, v := db, 0;
      if input.key != "" && input.key != key {
        return Err(Invalid), draft, v;
      }
      var ok := ValidateEntitlementInput(input.(key := key));
      if !ok {
        return Err(Invalid), draft, v;
      }
      var tx, d := EnsureDraft(db);
      draft, v := tx, d;
      DraftCodes(db, tx, d);
      var plan := FindPlan(tx, d, planCode);
      if plan.None? {
        return Err(NotFound), draft, v;
      }
      var done := UpsertGrant(tx, plan.value, input.(key := key));
      EvolvesTransitive(db, tx, done);
      db := done;
      r := Ok(plan.value);
    }

    method DeletePlanEntitlement(planCode: string, key: string)
      returns (r: Result<Id, Error>, ghost draft: Tables, ghost v: Id)
      requires Invariant(db)
      modifies this`db
      ensures Invariant(db) && Evolves(old(db), db)
      ensures DraftEnsured(old(db), draft, v)
      ensures r.Ok? <==> exists g :: g in draft.grants && draft.grants[g].key == key
                                     && draft.grants[g].plan in PlansAt(draft.plans, v)
                                     && draft.plans[draft.grants[g].plan].code == planCode
      ensures r.Ok? ==> r.value in PlansAt(draft.plans, v) && draft.plans[r.value].code == planCode
      ensures r.Ok? ==> GrantChanged(draft, db, r.value, key, None)
      ensures r.Err? ==> r.error == NotFound && db == old(db)
    {
      var tx, d := EnsureDraft(db);
      draft, v := tx, d;
      var plan := FindPlan(tx, d, planCode);
      if plan.None? {
        return Err(NotFound), draft, v;
      }
      OnlyOnePlan(tx, d, plan.value, planCode);
      var done, deleted := DeleteGrantByKey(tx, plan.value, key);
      if !deleted {
        return Err(NotFound), draft, v;
      }
      EvolvesTransitive(db, tx, done);
      db := done;
      r := Ok(plan.value);
    }

    /**
     * Subscribes a customer to a plan of a published version; `blocked` says that a cutover lock or a
     * draining cell forbids it.
     */
    method CreateSubscription(blocked: bool, customers: set<string>, externalId: string, customer: string,
                              version: Option<Id>, planCode: string)
      returns (r: Result<Id, Error>, ghost plan: Id)
      requires Invariant(db)
      modifies this`db
      ensures Invariant(db) && Evolves(old(db), db)
      ensures r.Ok? <==> externalId != "" && customer != "" && planCode != "" && version.Some? && !blocked
                         && customer in customers && version.value < |old(db).versions|
                         && old(db).versions[version.value] == Published
                         && planCode in PlanCodes(RowsOf(old(db), version.value))
                         && !ExternalIdTaken(old(db), externalId)
      ensures r.Ok? ==> r.value == old(db).nextId && r.value !in old(db).subscriptions
      ensures r.Ok? ==> plan in PlansAt(old(db).plans, version.value) && old(db).plans[plan].code == planCode
                        && db == Subscribed(old(db), externalId, customer, version.value, plan)
      ensures r.Ok? ==> OnlyNew(old(db), db, r.value, Subscription(externalId, customer, version.value, plan, true))
      ensures r.Err? ==> db == old(db)
    {
      plan := 0;
      if externalId == "" || customer == "" || planCode == "" || version.None? {
        return Err(Invalid), plan;
      }
      if blocked {
        return Err(Blocked), plan;
      }
      var v := version.value;
      if customer !in customers || v >= |db.versions| {
        return Err(Invalid), plan;
      }
      if db.versions[v] != Published {
        return Err(Conflict), plan;
      }
      var found := FindPlan(db, v, planCode);
      if found.None? {
        return Err(Invalid), plan;
      }
      if exists s :: s in db.subscriptions && db.subscriptions[s].externalId == externalId {
        return Err(Conflict), plan;
      }
      SubscribeKeeps(db, externalId, customer, v, found.value);
      SubscribedOnlyNew(db, externalId, customer, v, found.value);
      plan := found.value;
      r := Ok(db.nextId);
      db := Subscribed(db, externalId, customer, v, found.value);
    }

    /** The only change a subscription ever sees; its pins stay. */
    method TerminateSubscription(s: Id) returns (r: Result<Id, Error>)
      requires Invariant(db)
      modifies this`db
      ensures Invariant(db) && Evolves(old(db), db)
      ensures r.Ok? <==> s in old(db).subscriptions && old(db).subscriptions[s].active
      ensures r.Ok? ==> r.value == s && s in db.subscriptions && !db.subscriptions[s].active
      ensures r.Ok? ==> db.subscriptions[s] == old(db).subscriptions[s].(active := false)
                        && db == old(db).(subscriptions := old(db).subscriptions[s := db.subscriptions[s]])
                        && s !in ActiveOf(db, old(db).subscriptions[s].customer)
      ensures r.Err? ==> db == old(db)
      ensures r.Err? ==> r.error == if s in old(db).subscriptions then Conflict else NotFound
    {
      if s !in db.subscriptions {
        return Err(NotFound);
      }
      if !db.subscriptions[s].active {
        return Err(Conflict);
      }
      TerminateKeeps(db, s);
      db := Terminated(db, s);
      r := Ok(s);
    }

    method UpsertEntitlementOverride(s: Id, key: string, row: OverrideRow) returns (r: Result<Id, Error>)
      modifies this`overrides
      ensures r.Ok? <==> EntitlementOk(key, row.valueType, row.value) && s in db.subscriptions
      ensures r.Ok? ==> r.value == s && OverridesOf(overrides, s) == OverridesOf(old(overrides), s)[key := row]
      ensures forall t | t != s :: OverridesOf(overrides, t) == OverridesOf(old(overrides), t)
      ensures r.Err? ==> overrides == old(overrides)
      ensures r.Err? ==> r.error == if EntitlementOk(key, row.valueType, row.value) then NotFound else Invalid
    {
      if key == "" || !ValidValueType(row.valueType) || |row.value| == 0 || row.value == "null" {
        return Err(Invalid);
      }
      if s !in db.subscriptions {
        return Err(NotFound);
      }
      overrides := overrides[s := OverridesOf(overrides, s)[key := row]];
      r := Ok(s);
    }

    method DeleteEntitlementOverride(s: Id, key: string) returns (r: Result<Id, Error>)
      modifies this`overrides
      ensures r.Ok? <==> key != "" && s in db.subscriptions && key in OverridesOf(old(overrides), s)
      ensures r.Ok? ==> r.value == s && OverridesOf(overrides, s) == OverridesOf(old(overrides), s) - {key}
      ensures forall t | t != s :: OverridesOf(overrides, t) == OverridesOf(old(overrides), t)
      ensures r.Err? ==> overrides == old(overrides)
      ensures r.Err? ==> r.error == if key == "" then Invalid else NotFound
    {
      if key == "" {
        return Err(Invalid);
      }
      if s !in db.subscriptions || key !in OverridesOf(overrides, s) {
        return Err(NotFound);
      }
      overrides := overrides[s := overrides[s] - {key}];
      r := Ok(s);
    }

    method EditPlans(q: Request)
      requires Invariant(db)
      requires q.CreateOnePlan? || q.UpdateOnePlan? || q.DeleteOnePlan? || q.SetPolicy? || q.DeletePolicy?
      modifies this`db
      ensures Invariant(db) && Evolves(old(db), db)
    {
      match q
      case CreateOnePlan(plan) => var _, _, _ := CreatePlan(plan);
      case UpdateOnePlan(code, plan) => var _, _, _ := UpdatePlan(code, plan);
      case DeleteOnePlan(code) => var _, _, _ := DeletePlan(code);
      case SetPolicy(code, key, policy) => var _, _, _ := SetPlanEntitlement(code, key, policy);
      case DeletePolicy(code, key) => var _, _, _ := DeletePlanEntitlement(code, key);
    }

    method Handle(q: Request)
      requires Invariant(db)
      modifies this
      ensures Invariant(db) && Evolves(old(db), db)
    {
      match q
      case CreateVersion(from) => var _ := CreateCatalogVersion(from);
      case ReplaceVersion(v, c) => var _ := ReplaceCatalogContent(v, c);
      case ValidateVersion(v) => var _ := ValidateCatalogVersion(v);
      case PublishVersion(v, canPublish) => var _ := PublishCatalogVersion(v, canPublish);
      case RetireVersion(v) => var _ := RetireCatalogVersion(v);
      case Subscribe(blocked, customers, externalId, customer, pinned, code) =>
        var _, _ := CreateSubscription(blocked, customers, externalId, customer, pinned, code);
      case Terminate(s) => var _ := TerminateSubscription(s);
      case SetOverride(s, key, row) => var _ := UpsertEntitlementOverride(s, key, row);
      case DeleteOverride(s, key) => var _ := DeleteEntitlementOverride(s, key);
      case _ => EditPlans(q);
    }

    /** Whatever requests arrive, in whatever order, the tables go through a run of the service. */
    method Serve(requests: seq<Request>) returns (ghost run: seq<ServiceState>)
      requires Invariant(db)
      modifies this
      ensures ServiceRun(run) && |run| == |requests| + 1
      ensures run[0] == ServiceState(old(db), old(overrides))
      ensures run[|requests|] == ServiceState(db, overrides)
    {
      run := [ServiceState(db, overrides)];
      for i := 0 to |requests|
        invariant |run| == i + 1 && ServiceRun(run)
        invariant run[0] == ServiceState(old(db), old(overrides)) && run[i] == ServiceState(db, overrides)
      {
        Handle(requests[i]);
        LongerRun(run, ServiceState(db, overrides));
        run := run + [ServiceState(db, overrides)];
      }
    }

    /** The customer's most recent active subscription; ids grow with time. */
    method ActiveSubscription(customer: string) returns (s: Option<Id>)
      ensures s.Some? ==> s.value in ActiveOf(db, customer) && forall t | t in ActiveOf(db, customer) :: t <= s.value
      ensures s.None? <==> ActiveOf(db, customer) == {}
    {
      var all := ActiveOf(db, customer);
      var rest := all;
      s := None;
      while rest != {}
        invariant rest <= all
        invariant s.None? ==> rest == all
        invariant s.Some? ==> s.value in all && forall t | t in all && t !in rest :: t <= s.value
        decreases rest
      {
        var t :| t in rest;
        rest := rest - {t};
        if s.None? || s.value < t {
          s := Some(t);
        }
      }
      assert s.Some? ==> all != {};
    }

    /** The snapshot holds, for every key, what the subscription is entitled to, and no other keys. */
    method GetEntitlementSnapshot(customers: set<string>, customer: string, now: int)
      returns (r: Result<Snapshot, Error>)
      requires Invariant(db)
      ensures r.Ok? <==> customer != "" && customer in customers && ActiveOf(db, customer) != {}
      ensures r.Err? ==> r.error == if customer == "" then Invalid else NotFound
      ensures r.Ok? ==> var s := r.value.subscription;
                        && s in ActiveOf(db, customer) && (forall t | t in ActiveOf(db, customer) :: t <= s)
                        && r.value.version == db.subscriptions[s].version
                        && forall key: string :: EntitledOf(ServiceState(db, overrides), s, now, key) ==
                             if key in r.value.entitlements then Some(r.value.entitlements[key]) else None
      ensures r.Ok? <==> customer != "" && customer in customers
                         && exists s :: s in db.subscriptions && db.subscriptions[s].customer == customer
                                        && db.subscriptions[s].active
      ensures r.Ok? ==> var s := r.value.subscription;
                        && s in db.subscriptions && db.subscriptions[s].customer == customer
                        && db.subscriptions[s].active
                        && forall t | t in db.subscriptions && db.subscriptions[t].customer == customer
                                      && db.subscriptions[t].active :: t <= s
      ensures r.Ok? ==> EntitledInPlainTerms(GrantsUnder(db.grants, db.subscriptions[r.value.subscription].plan),
                                             OverridesOf(overrides, r.value.subscription), now, r.value.entitlements)
    {
      assert forall t :: t in ActiveOf(db, customer) <==>
          t in db.subscriptions && db.subscriptions[t].customer == customer && db.subscriptions[t].active;
      if customer == "" {
        return Err(Invalid);
      }
      if customer !in customers {
        return Err(NotFound);
      }
      var s := ActiveSubscription(customer);
      if s.None? {
        return Err(NotFound);
      }
      var sub := db.subscriptions[s.value];
      var grants := GrantsUnder(db.grants, sub.plan);
      var out := Evaluate(grants, OverridesOf(overrides, s.value), now);
      r := Ok(Snapshot(s.value, sub.version, out));
    }
  }

  lemma OnlyOnePlan(db: Tables, v: Id, p: Id, code: string)
    requires Invariant(db) && p in PlansAt(db.plans, v) && db.plans[p].code == code
    ensures forall q | q in PlansAt(db.plans, v) && db.plans[q].code == code :: q == p
  {
  }

  /** UpdatePlan's writes: the row, then its children anew. */
  method RewriteWithChildren(tx: Tables, v: Id, p: Id, plan: PlanInput) returns (r: Result<Tables, Error>)
    requires Invariant(tx) && IsDraft(tx, v) && p in PlansAt(tx.plans, v) && tx.plans[p].code == plan.code
    requires PlanOk(plan, MetricCodes(RowsOf(tx, v)), false)
    ensures r.Ok? <==> AllResolve(plan.prices, MetricCodes(RowsOf(tx, v)))
    ensures r.Err? ==> r.error == ForeignKey
    ensures r.Ok? ==> Invariant(r.value) && Evolves(tx, r.value)
    ensures r.Ok? ==> PlanChanged(tx, r.value, p, NewPlan(v, plan)) && PlanReadsAs(r.value, p, plan)
  {
    var row := NewPlan(v, plan);
    var tx1 := RewritePlan(tx, p, row);
    var metricIDs := IndexMetrics(tx1, v);
    r := InsertChildren(tx1, p, plan, metricIDs);
    if r.Ok? {
      EvolvesTransitive(tx, tx1, r.value);
      ChangedWithChildren(tx, tx1, r.value, p, row);
    }
  }
}
