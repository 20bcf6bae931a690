/**
 * What a subscription is entitled to, as a function of the rows stored for it, and why nothing but its
 * own overrides and the clock can change that.
 */
module Entitlements {
  import opened Prelude
  import opened CatalogContent
  import opened CatalogStore
  import opened CatalogReading

  datatype OverrideRow = OverrideRow(valueType: ValueType, value: string, expiresAt: Option<int>)

  /** The override rows, unique by subscription and key. */
  type Overrides = map<Id, map<string, OverrideRow>>

  function OverridesOf(overrides: Overrides, s: Id): map<string, OverrideRow> {
    if s in overrides then overrides[s] else map[]
  }

  predicate Lapsed(o: OverrideRow, now: int) { o.expiresAt.Some? && now >= o.expiresAt.value }

  predicate InForce(own: map<string, OverrideRow>, key: string, now: int) {
    key in own && !Lapsed(own[key], now)
  }

  /** An override in force wins; without one, the plan's grant for the key counts. */
  ghost function Entitled(grants: map<Id, GrantRow>, own: map<string, OverrideRow>, now: int, key: string)
    : (e: Option<Evaluated>)
    ensures e.None? <==> !InForce(own, key, now) && forall g | g in grants :: grants[g].key != key
  {
    if InForce(own, key, now) then Some(Evaluated(own[key].valueType, own[key].value, FromOverride, own[key].expiresAt))
    else if exists g :: g in grants && grants[g].key == key then
      var g :| g in grants && grants[g].key == key;
      Some(Evaluated(grants[g].valueType, grants[g].value, FromPlan, None))
    else None
  }

  // ---- the loops of GetEntitlementSnapshot ----

  function AsGrant(g: GrantRow): Grant { Grant(g.key, g.valueType, g.value) }

  function AsOverride(key: string, o: OverrideRow): Override { Override(key, o.valueType, o.value, o.expiresAt) }

  method ToGrantKVs(rows: map<Id, GrantRow>, ids: seq<Id>) returns (kvs: seq<Grant>)
    requires forall id | id in ids :: id in rows
    ensures |kvs| == |ids| && forall i | 0 <= i < |ids| :: kvs[i] == AsGrant(rows[ids[i]])
  {
    kvs := [];
    for i := 0 to |ids|
      invariant |kvs| == i && forall j | 0 <= j < i :: kvs[j] == AsGrant(rows[ids[j]])
    {
      kvs := kvs + [AsGrant(rows[ids[i]])];
    }
  }

  method ToOverrideKVs(own: map<string, OverrideRow>, keys: seq<string>) returns (kvs: seq<Override>)
    requires forall k | k in keys :: k in own
    ensures |kvs| == |keys| && forall i | 0 <= i < |keys| :: kvs[i] == AsOverride(keys[i], own[keys[i]])
  {
    kvs := [];
    for i := 0 to |keys|
      invariant |kvs| == i && forall j | 0 <= j < i :: kvs[j] == AsOverride(keys[j], own[keys[j]])
    {
      kvs := kvs + [AsOverride(keys[i], own[keys[i]])];
    }
  }

  /**
   * A key maps to its override until the moment that expires; else to the plan's grant for it; and a key with
   * neither is not in the map.
   */
  ghost predicate EntitledInPlainTerms(grants: map<Id, GrantRow>, own: map<string, OverrideRow>, now: int,
                                       out: map<string, Evaluated>) {
    && (forall key | key in own && (own[key].expiresAt == None || now < own[key].expiresAt.value) ::
          key in out && out[key] == Evaluated(own[key].valueType, own[key].value, FromOverride, own[key].expiresAt))
    && (forall g | g in grants && (grants[g].key !in own || (own[grants[g].key].expiresAt.Some?
                                                             && own[grants[g].key].expiresAt.value <= now)) ::
          grants[g].key in out
          && out[grants[g].key] == Evaluated(grants[g].valueType, grants[g].value, FromPlan, None))
    && (forall key | key in out ::
          (key in own && (own[key].expiresAt == None || now < own[key].expiresAt.value))
          || exists g :: g in grants && grants[g].key == key)
  }

  lemma EntitledMeans(grants: map<Id, GrantRow>, own: map<string, OverrideRow>, now: int, out: map<string, Evaluated>)
    requires forall g, h | g in grants && h in grants && g != h :: grants[g].key != grants[h].key
    requires forall key: string :: Entitled(grants, own, now, key) == if key in out then Some(out[key]) else None
    ensures EntitledInPlainTerms(grants, own, now, out)
  {
    forall g | g in grants && !InForce(own, grants[g].key, now)
      ensures grants[g].key in out
              && out[grants[g].key] == Evaluated(grants[g].valueType, grants[g].value, FromPlan, None)
    {
      assert Entitled(grants, own, now, grants[g].key)
          == Some(Evaluated(grants[g].valueType, grants[g].value, FromPlan, None));
    }
    forall key | key in own && InForce(own, key, now)
      ensures key in out && out[key] == Evaluated(own[key].valueType, own[key].value, FromOverride, own[key].expiresAt)
    {
      assert Entitled(grants, own, now, key).Some?;
    }
    forall key | key in out && !InForce(own, key, now)
      ensures exists g :: g in grants && grants[g].key == key
    {
      assert Entitled(grants, own, now, key).Some?;
    }
  }

  /** The evaluation does not depend on the order in which the queries list the rows. */
  method Evaluate(grants: map<Id, GrantRow>, own: map<string, OverrideRow>, now: int)
    returns (out: map<string, Evaluated>)
    requires forall g, h | g in grants && h in grants && g != h :: grants[g].key != grants[h].key
    ensures forall key: string :: Entitled(grants, own, now, key) == if key in out then Some(out[key]) else None
    ensures EntitledInPlainTerms(grants, own, now, out)
  {
    var ids := Query(grants.Keys);
    var keys := Query(own.Keys);
    var gs := ToGrantKVs(grants, ids);
    var os := ToOverrideKVs(own, keys);
    out := EvaluateEntitlements(gs, os, now);
    forall key: string
      ensures Entitled(grants, own, now, key) == Effective(gs, os, now, key)
    {
      EffectiveIsEntitled(grants, own, ids, keys, gs, os, now, key);
    }
    EntitledMeans(grants, own, now, out);
  }

  lemma {:induction false} GrantForUnique(rows: map<Id, GrantRow>, ids: seq<Id>, kvs: seq<Grant>, key: string, g: Id)
    requires |kvs| == |ids| && forall i | 0 <= i < |ids| :: ids[i] in rows && kvs[i] == AsGrant(rows[ids[i]])
    requires forall h, k | h in rows && k in rows && h != k :: rows[h].key != rows[k].key
    requires g in ids && rows[g].key == key
    ensures GrantFor(kvs, key) == Some(Evaluated(rows[g].valueType, rows[g].value, FromPlan, None))
  {
    var n := |ids| - 1;
    assert ids == ids[..n] + [ids[n]];
    if ids[n] != g {
      GrantForUnique(rows, ids[..n], kvs[..n], key, g);
    }
  }

  lemma {:induction false} OverrideForUnique(own: map<string, OverrideRow>, keys: seq<string>, kvs: seq<Override>,
                                             key: string, now: int)
    requires |kvs| == |keys|
    requires forall i | 0 <= i < |keys| :: keys[i] in own && kvs[i] == AsOverride(keys[i], own[keys[i]])
    requires key in keys && InForce(own, key, now)
    ensures OverrideFor(kvs, key, now)
            == Some(Evaluated(own[key].valueType, own[key].value, FromOverride, own[key].expiresAt))
  {
    var n := |keys| - 1;
    assert keys == keys[..n] + [keys[n]];
    if keys[n] != key {
      OverrideForUnique(own, keys[..n], kvs[..n], key, now);
    }
  }

  lemma EffectiveIsEntitled(grants: map<Id, GrantRow>, own: map<string, OverrideRow>, ids: seq<Id>, keys: seq<string>,
                            gs: seq<Grant>, os: seq<Override>, now: int, key: string)
    requires Enumerates(ids, grants.Keys) && Enumerates(keys, own.Keys)
    requires |gs| == |ids| && forall i | 0 <= i < |ids| :: gs[i] == AsGrant(grants[ids[i]])
    requires |os| == |keys| && forall i | 0 <= i < |keys| :: os[i] == AsOverride(keys[i], own[keys[i]])
    requires forall g, h | g in grants && h in grants && g != h :: grants[g].key != grants[h].key
    ensures Effective(gs, os, now, key) == Entitled(grants, own, now, key)
  {
    OverrideForIff(os, key, now);
    if InForce(own, key, now) {
      OverrideForUnique(own, keys, os, key, now);
    } else {
      NoneInForce(own, keys, os, now, key);
      GrantForIff(gs, key);
      if g :| g in grants && grants[g].key == key {
        GrantForUnique(grants, ids, gs, key, g);
      } else {
        forall x | x in gs
          ensures x.key != key
        {
          var i :| 0 <= i < |gs| && gs[i] == x;
          assert ids[i] in ids;
        }
      }
    }
  }

  lemma NoneInForce(own: map<string, OverrideRow>, keys: seq<string>, os: seq<Override>, now: int, key: string)
    requires Enumerates(keys, own.Keys) && !InForce(own, key, now)
    requires |os| == |keys| && forall i | 0 <= i < |keys| :: os[i] == AsOverride(keys[i], own[keys[i]])
    ensures OverrideFor(os, key, now).None?
  {
    OverrideForIff(os, key, now);
    forall o | o in os && o.key == key
      ensures Expired(o, now)
    {
      var i :| 0 <= i < |os| && os[i] == o;
      assert keys[i] in keys;
    }
  }

  // ---- over a run of the service ----

  datatype ServiceState = ServiceState(db: Tables, overrides: Overrides)

  /** What the service's operations make of its tables, one after the other. */
  ghost predicate ServiceRun(run: seq<ServiceState>) {
    && (forall k | 0 <= k < |run| :: Invariant(run[k].db))
    && (forall k | 0 <= k < |run| - 1 :: Evolves(run[k].db, run[k + 1].db))
  }

  ghost function EntitledOf(st: ServiceState, s: Id, now: int, key: string): Option<Evaluated>
    requires s in st.db.subscriptions
  {
    Entitled(GrantsUnder(st.db.grants, st.db.subscriptions[s].plan), OverridesOf(st.overrides, s), now, key)
  }

  /** The override a subscription has for a key, as far as it is in force. */
  ghost function OverrideInForce(own: map<string, OverrideRow>, key: string, now: int): Option<OverrideRow> {
    if InForce(own, key, now) then Some(own[key]) else None
  }

  /**
   * Over any run, whatever is drafted, published, retired or terminated meanwhile, what a subscription
   * is entitled to under a key changes only if its own override in force for that key does.
   */
  lemma EntitlementsPinned(run: seq<ServiceState>, i: nat, j: nat, s: Id, key: string, now: int, later: int)
    requires ServiceRun(run) && i <= j < |run| && s in run[i].db.subscriptions
    requires OverrideInForce(OverridesOf(run[i].overrides, s), key, now)
             == OverrideInForce(OverridesOf(run[j].overrides, s), key, later)
    ensures s in run[j].db.subscriptions
    ensures EntitledOf(run[i], s, now, key) == EntitledOf(run[j], s, later, key)
  {
    var dbs := seq(|run|, k requires 0 <= k < |run| => run[k].db);
    PinnedForever(dbs, i, j, s);
    assert dbs[i] == run[i].db && dbs[j] == run[j].db;
    var p := dbs[i].subscriptions[s].plan;
    assert OfferOf(dbs[i], p).grants == OfferOf(dbs[j], p).grants;
  }
}
