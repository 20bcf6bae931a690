/**
 * Where drafts come from: the latest draft is edited further; without one, the latest published
 * version is cloned, or an empty draft is made.
 */
module CatalogDrafts {
  import opened Prelude
  import opened CatalogContent
  import opened CatalogStore
  import opened CatalogReading
  import opened CatalogCloning

  /** The highest version in the given state. */
  function Latest(versions: seq<CatalogState>, state: CatalogState): (r: Option<Id>)
    ensures r.None? <==> state !in versions
    ensures r.Some? ==> r.value < |versions| && versions[r.value] == state
                        && forall v | r.value < v < |versions| :: versions[v] != state
  {
    if versions == [] then None
    else
      var n := |versions| - 1;
      if versions[n] == state then Some(n) else Latest(versions[..n], state)
  }

  /** The two versions read back as the same contents. */
  ghost predicate SameContents(a: Rows, b: Rows) {
    forall c :: ReadsAs(a, c) <==> ReadsAs(b, c)
  }

  /** From `a` to `b`, the next version `v` was created as a draft: empty, or a copy of `from` in new rows. */
  ghost predicate DraftMade(a: Tables, b: Tables, v: Id, from: Option<Id>) {
    && v == |a.versions| && b.versions == a.versions + [Draft]
    && b.subscriptions == a.subscriptions
    && (forall w: Id | w != v :: RowsOf(b, w) == RowsOf(a, w))
    && AllNew(RowsOf(b, v), a.nextId)
    && match from
       case None => RowsOf(b, v) == NO_ROWS
       case Some(f) => SameContents(RowsOf(b, v), RowsOf(a, f))
  }

  lemma NewVersionFits(a: Tables)
    requires RowsOk(a)
    ensures RowsOk(a.(versions := a.versions + [Draft])) && RowsOf(a, |a.versions|) == NO_ROWS
  {
    var b := a.(versions := a.versions + [Draft]);
    assert forall id | id in a.metrics :: MetricFits(a, a.metrics[id]) && MetricFits(b, a.metrics[id]);
    assert forall id | id in a.plans :: PlanFits(a, a.plans[id]) && PlanFits(b, a.plans[id]);
    assert forall id | id in a.prices :: PriceFits(a, a.prices[id]) && PriceFits(b, a.prices[id]);
    assert forall id | id in a.grants :: GrantFits(a, a.grants[id]) && GrantFits(b, a.grants[id]);
  }

  lemma NewVersionKeeps(a: Tables)
    requires Invariant(a)
    ensures var b := a.(versions := a.versions + [Draft]);
            && Invariant(b) && Evolves(a, b) && RowsOf(b, |a.versions|) == NO_ROWS
  {
    var b := a.(versions := a.versions + [Draft]);
    NewVersionFits(a);
    forall v | 0 <= v < |b.versions| && b.versions[v] != Draft
      ensures Complete(b, v)
    {
      assert Complete(a, v);
    }
    forall s | s in b.subscriptions
      ensures SubscriptionOk(b, s)
    {
      assert SubscriptionOk(a, s);
    }
  }

  /** createDraftTx, and the body of CreateCatalogVersion. */
  method CreateDraft(tx0: Tables, from: Option<Id>) returns (tx: Tables, v: Id)
    requires Invariant(tx0) && (from.Some? ==> from.value < |tx0.versions|)
    ensures Invariant(tx) && Evolves(tx0, tx) && DraftMade(tx0, tx, v, from)
  {
    v := |tx0.versions|;
    NewVersionKeeps(tx0);
    tx := tx0.(versions := tx0.versions + [Draft]);
    if from.Some? {
      var tx1 := tx;
      tx := CloneContent(tx1, from.value, v);
      EvolvesTransitive(tx0, tx1, tx);
      assert RowsOf(tx1, from.value) == RowsOf(tx0, from.value);
    }
  }

  /** From `a` to `b`, version `v` is the draft to edit. */
  ghost predicate DraftEnsured(a: Tables, b: Tables, v: Id) {
    match Latest(a.versions, Draft)
    case Some(d) => b == a && v == d
    case None => DraftMade(a, b, v, Latest(a.versions, Published))
  }

  /** The last version in the given state. */
  predicate IsLast(versions: seq<CatalogState>, state: CatalogState, v: Id) {
    v < |versions| && versions[v] == state && forall w | v < w < |versions| :: versions[w] != state
  }

  /** That is: the last draft as it is; without one a new draft, a copy of the last published version or empty. */
  lemma DraftComesFrom(a: Tables, b: Tables, v: Id, w: Id)
    requires DraftEnsured(a, b, v)
    ensures IsLast(a.versions, Draft, w) ==> v == w && b == a
    ensures Draft !in a.versions ==> v == |a.versions| && b.versions == a.versions + [Draft]
    ensures Draft !in a.versions && IsLast(a.versions, Published, w) ==>
              forall c :: ReadsAs(RowsOf(b, v), c) <==> ReadsAs(RowsOf(a, w), c)
    ensures Draft !in a.versions && Published !in a.versions ==> RowsOf(b, v) == NO_ROWS
  {
    if IsLast(a.versions, Published, w) {
      assert Latest(a.versions, Published) == Some(w);
    }
  }

  method EnsureDraft(tx0: Tables) returns (tx: Tables, v: Id)
    requires Invariant(tx0)
    ensures Invariant(tx) && Evolves(tx0, tx) && IsDraft(tx, v) && DraftEnsured(tx0, tx, v)
  {
    var draft := Latest(tx0.versions, Draft);
    if draft.Some? {
      return tx0, draft.value;
    }
    tx, v := CreateDraft(tx0, Latest(tx0.versions, Published));
  }

  // ---- what the draft to edit will hold ----

  /** The version whose content the draft to edit starts from. */
  function Base(db: Tables): Option<Id> {
    var d := Latest(db.versions, Draft);
    if d.Some? then d else Latest(db.versions, Published)
  }

  function MetricCodes(r: Rows): set<string> { set id | id in r.metrics :: r.metrics[id].code }

  function PlanCodes(r: Rows): set<string> { set id | id in r.plans :: r.plans[id].code }

  function BaseRows(db: Tables): Rows {
    if Base(db).Some? then RowsOf(db, Base(db).value) else NO_ROWS
  }

  lemma {:induction false} Listable(rows: set<Id>) returns (ids: seq<Id>)
    ensures Enumerates(ids, rows)
    decreases rows
  {
    if rows == {} {
      ids := [];
    } else {
      var id :| id in rows;
      var rest := Listable(rows - {id});
      ids := rest + [id];
    }
  }

  lemma MetricCodesListed(rows: map<Id, MetricRow>, ids: seq<Id>, ms: seq<MetricInput>)
    requires Enumerates(ids, rows.Keys) && |ms| == |ids|
    requires forall i | 0 <= i < |ids| :: ids[i] in rows && ms[i].code == rows[ids[i]].code
    ensures (set id | id in rows :: rows[id].code) == Codes(ms)
  {
    forall id | id in rows
      ensures rows[id].code in Codes(ms)
    {
      var i :| 0 <= i < |ids| && ids[i] == id;
      assert ms[i] in ms;
    }
    forall m | m in ms
      ensures m.code in set id | id in rows :: rows[id].code
    {
      var i :| 0 <= i < |ms| && ms[i] == m;
      assert ids[i] in rows;
    }
  }

  lemma PlanCodesListed(rows: map<Id, PlanRow>, ids: seq<Id>, ps: seq<PlanInput>)
    requires Enumerates(ids, rows.Keys) && |ps| == |ids|
    requires forall i | 0 <= i < |ids| :: ids[i] in rows && ps[i].code == rows[ids[i]].code
    ensures (set id | id in rows :: rows[id].code) == set p | p in ps :: p.code
  {
    forall id | id in rows
      ensures rows[id].code in set p | p in ps :: p.code
    {
      var i :| 0 <= i < |ids| && ids[i] == id;
      assert ps[i] in ps;
    }
    forall p | p in ps
      ensures p.code in set id | id in rows :: rows[id].code
    {
      var i :| 0 <= i < |ps| && ps[i] == p;
      assert ids[i] in rows;
    }
  }

  lemma CodesRead(r: Rows, c: Content)
    requires ReadsAs(r, c)
    ensures MetricCodes(r) == Codes(c.metrics) && PlanCodes(r) == set p | p in c.plans :: p.code
  {
    var l :| Lists(l, r) && ContentOf(r, l) == c;
    MetricCodesListed(r.metrics, l.metrics, c.metrics);
    PlanCodesListed(r.plans, l.plans, c.plans);
  }

  /** The draft to edit has the metric and plan codes of the version it starts from. */
  lemma DraftCodes(a: Tables, b: Tables, v: Id)
    requires DraftEnsured(a, b, v)
    ensures MetricCodes(RowsOf(b, v)) == MetricCodes(BaseRows(a)) && PlanCodes(RowsOf(b, v)) == PlanCodes(BaseRows(a))
  {
    if Latest(a.versions, Draft).None? && Latest(a.versions, Published).Some? {
      var base := RowsOf(a, Latest(a.versions, Published).value);
      var ms := Listable(base.metrics.Keys);
      var ps := Listable(base.plans.Keys);
      var prices := Listable(base.prices.Keys);
      var grants := Listable(base.grants.Keys);
      var c := ContentOf(base, Listing(ms, ps, prices, grants));
      assert ReadsAs(base, c);
      CodesRead(base, c);
      CodesRead(RowsOf(b, v), c);
    }
  }
}
