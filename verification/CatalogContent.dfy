/**
 * The content of a catalogue version as clients send it, its validation, its lifecycle states, and
 * the evaluation of entitlements.
 */
module CatalogContent {
  import opened Prelude
  import opened TierValidation

  datatype CatalogState = Draft | Validated | Published | Retired

  /** draft -> validated -> published -> retired, one step at a time. */
  function TransitionCatalog(from: CatalogState, to: CatalogState): (r: Option<CatalogState>)
    ensures r.Some? <==> Rank(to) == Rank(from) + 1
    ensures r.Some? ==> r.value == to
  {
    match from
    case Draft => if to == Validated then Some(to) else None
    case Validated => if to == Published then Some(to) else None
    case Published => if to == Retired then Some(to) else None
    case Retired => None
  }

  function Rank(s: CatalogState): nat {
    match s
    case Draft => 0
    case Validated => 1
    case Published => 2
    case Retired => 3
  }

  /** Enumerated fields arrive as strings: one of the known words, or any other. */
  datatype Aggregation = Count | Sum | Maximum | UniqueCount | OtherAggregation(word: string)

  datatype Interval = Weekly | Monthly | Yearly | OtherInterval(word: string)

  datatype ChargeModel = Fixed | PerUnit | Tiered | OtherModel(word: string)

  datatype ValueType = Boolean | Numeric | Period | OtherType(word: string)

  datatype MetricInput = MetricInput(
    code: string, name: string, aggregation: Aggregation, fieldName: string, billable: Option<bool>)

  datatype FixedProperties = FixedProperties(amountCents: Option<int>, currency: string)

  datatype PerUnitProperties = PerUnitProperties(unitAmountCents: Option<int>)

  /** The properties document of a price: absent, or JSON with what each charge model decodes from it. */
  datatype Properties =
    | Absent
    | Json(fixed: Option<FixedProperties>, perUnit: Option<PerUnitProperties>, tiered: Option<seq<PriceTier>>)

  datatype PriceInput = PriceInput(metricCode: string, chargeModel: ChargeModel, properties: Properties)

  datatype EntitlementInput = EntitlementInput(key: string, valueType: ValueType, value: string)

  datatype PlanInput = PlanInput(
    code: string, name: string, interval: Interval, currency: string,
    prices: seq<PriceInput>, entitlements: seq<EntitlementInput>)

  datatype Content = Content(metrics: seq<MetricInput>, plans: seq<PlanInput>)

  // ---- the rules, one entity at a time ----

  predicate ValidAggregationType(a: Aggregation) { !a.OtherAggregation? }

  predicate ValidInterval(i: Interval) { !i.OtherInterval? }

  predicate ValidChargeModel(m: ChargeModel) { !m.OtherModel? }

  predicate ValidValueType(t: ValueType) { !t.OtherType? }

  predicate MetricOk(code: string, aggregation: Aggregation) {
    code != "" && ValidAggregationType(aggregation)
  }

  predicate PlanHeadOk(code: string, interval: Interval, currency: string) {
    code != "" && ValidInterval(interval) && |currency| == 3
  }

  predicate EntitlementOk(key: string, valueType: ValueType, value: string) {
    key != "" && ValidValueType(valueType) && value != "" && value != "null"
  }

  /** A price under a plan with the given currency; `resolved` says that its metric exists. */
  predicate PriceOk(currency: string, chargeModel: ChargeModel, properties: Properties, resolved: bool) {
    match chargeModel
    case Fixed =>
      && properties.Json? && properties.fixed.Some?
      && NonNegative(properties.fixed.value.amountCents)
      && properties.fixed.value.currency == currency
    case PerUnit =>
      && resolved && properties.Json? && properties.perUnit.Some?
      && NonNegative(properties.perUnit.value.unitAmountCents)
    case Tiered =>
      resolved && properties.Json? && properties.tiered.Some? && TiersOk(properties.tiered.value)
    case OtherModel(_) => false
  }

  predicate NonNegative(x: Option<int>) { x.Some? && x.value >= 0 }

  predicate Resolves(code: string, codes: set<string>) { code != "" && code in codes }

  // ---- the rules for a whole catalogue ----

  function Codes(metrics: seq<MetricInput>): set<string> { set m | m in metrics :: m.code }

  predicate MetricsOk(metrics: seq<MetricInput>) {
    && (forall m | m in metrics :: MetricOk(m.code, m.aggregation))
    && (forall i, j | 0 <= i < j < |metrics| :: metrics[i].code != metrics[j].code)
  }

  predicate EntitlementsOk(es: seq<EntitlementInput>) {
    && (forall e | e in es :: EntitlementOk(e.key, e.valueType, e.value))
    && KeysDistinct(es)
  }

  predicate KeysDistinct(es: seq<EntitlementInput>) {
    forall i, j | 0 <= i < j < |es| :: es[i].key != es[j].key
  }

  predicate PlanOk(p: PlanInput, codes: set<string>, requireComplete: bool) {
    && PlanHeadOk(p.code, p.interval, p.currency)
    && (requireComplete ==> p.prices != [])
    && (forall pr | pr in p.prices ::
         PriceOk(p.currency, pr.chargeModel, pr.properties, Resolves(pr.metricCode, codes)))
    && EntitlementsOk(p.entitlements)
  }

  predicate CatalogOk(c: Content, requireComplete: bool) {
    && MetricsOk(c.metrics)
    && (requireComplete ==> c.plans != [])
    && (forall p | p in c.plans :: PlanOk(p, Codes(c.metrics), requireComplete))
    && (forall i, j | 0 <= i < j < |c.plans| :: c.plans[i].code != c.plans[j].code)
  }

  // ---- the validators ----

  method ValidateMetrics(metrics: seq<MetricInput>) returns (ok: bool, codes: set<string>)
    ensures ok <==> MetricsOk(metrics)
    ensures ok <==> (forall m | m in metrics :: m.code != "" && !m.aggregation.OtherAggregation?)
                    && (forall i, j | 0 <= i < j < |metrics| :: metrics[i].code != metrics[j].code)
    ensures ok ==> codes == Codes(metrics)
  {
    codes := {};
    for i := 0 to |metrics|
      invariant MetricsOk(metrics[..i]) && codes == Codes(metrics[..i])
    {
      var m := metrics[i];
      assert metrics[..i + 1] == metrics[..i] + [m];
      if m.code == "" {
        return false, codes;
      }
      if m.code in codes {
        var j :| 0 <= j < i && metrics[..i][j].code == m.code;
        assert metrics[j].code == metrics[i].code;
        return false, codes;
      }
      codes := codes + {m.code};
      if !ValidAggregationType(m.aggregation) {
        return false, codes;
      }
    }
    assert metrics[..|metrics|] == metrics;
    ok := true;
  }

  method ValidatePrice(p: PlanInput, pr: PriceInput, codes: set<string>) returns (ok: bool)
    ensures ok <==> PriceOk(p.currency, pr.chargeModel, pr.properties, Resolves(pr.metricCode, codes))
    ensures pr.chargeModel.Fixed? ==>
              (ok <==> pr.properties.Json? && pr.properties.fixed.Some?
                       && pr.properties.fixed.value.currency == p.currency
                       && pr.properties.fixed.value.amountCents.Some?
                       && pr.properties.fixed.value.amountCents.value >= 0)
    ensures pr.chargeModel.PerUnit? ==>
              (ok <==> pr.metricCode != "" && pr.metricCode in codes
                       && pr.properties.Json? && pr.properties.perUnit.Some?
                       && pr.properties.perUnit.value.unitAmountCents.Some?
                       && pr.properties.perUnit.value.unitAmountCents.value >= 0)
    ensures pr.chargeModel.Tiered? ==>
              (ok <==> pr.metricCode != "" && pr.metricCode in codes
                       && pr.properties.Json? && pr.properties.tiered.Some?
                       && PartitionsNaturals(pr.properties.tiered.value))
    ensures pr.chargeModel.OtherModel? ==> !ok
  {
    if !ValidChargeModel(pr.chargeModel) {
      return false;
    }
    match pr.chargeModel
    case Fixed =>
      if pr.properties.Absent? || pr.properties.fixed.None? {
        return false;
      }
      var props := pr.properties.fixed.value;
      if props.amountCents.None? || props.amountCents.value < 0 {
        return false;
      }
      return props.currency == p.currency;
    case PerUnit =>
      if pr.metricCode == "" || pr.metricCode !in codes {
        return false;
      }
      if pr.properties.Absent? || pr.properties.perUnit.None? {
        return false;
      }
      var props := pr.properties.perUnit.value;
      return props.unitAmountCents.Some? && props.unitAmountCents.value >= 0;
    case Tiered =>
      if pr.metricCode == "" || pr.metricCode !in codes {
        return false;
      }
      if pr.properties.Absent? || pr.properties.tiered.None? {
        return false;
      }
      ValidIffPartition(pr.properties.tiered.value);
      ok := ValidateTiers(pr.properties.tiered.value);
  }

  method ValidateEntitlementInput(e: EntitlementInput) returns (ok: bool)
    ensures ok <==> EntitlementOk(e.key, e.valueType, e.value)
    ensures ok <==> e.key != "" && !e.valueType.OtherType? && e.value != "" && e.value != "null"
  {
    if e.key == "" {
      return false;
    }
    if !ValidValueType(e.valueType) {
      return false;
    }
    if |e.value| == 0 || e.value == "null" {
      return false;
    }
    return true;
  }

  method ValidateEntitlements(es: seq<EntitlementInput>) returns (ok: bool)
    ensures ok <==> EntitlementsOk(es)
  {
    var keys: set<string> := {};
    for i := 0 to |es|
      invariant EntitlementsOk(es[..i])
      invariant forall k :: k in keys <==> exists j :: 0 <= j < i && es[j].key == k
    {
      assert es[..i + 1] == es[..i] + [es[i]];
      ok := ValidateEntitlementInput(es[i]);
      if !ok {
        return;
      }
      if es[i].key in keys {
        return false;
      }
      keys := keys + {es[i].key};
    }
    assert es[..|es|] == es;
    ok := true;
  }

  method ValidatePlan(p: PlanInput, codes: set<string>, requireComplete: bool) returns (ok: bool)
    ensures ok <==> PlanOk(p, codes, requireComplete)
    ensures ok <==>
            && p.code != "" && !p.interval.OtherInterval? && |p.currency| == 3 && (requireComplete ==> p.prices != [])
            && (forall pr | pr in p.prices ::
                 PriceOk(p.currency, pr.chargeModel, pr.properties, Resolves(pr.metricCode, codes)))
            && EntitlementsOk(p.entitlements)
  {
    if p.code == "" || !ValidInterval(p.interval) || |p.currency| != 3 {
      return false;
    }
    if requireComplete && |p.prices| == 0 {
      return false;
    }
    for i := 0 to |p.prices|
      invariant forall j | 0 <= j < i :: PriceOk(p.currency, p.prices[j].chargeModel, p.prices[j].properties,
                                                 Resolves(p.prices[j].metricCode, codes))
    {
      ok := ValidatePrice(p, p.prices[i], codes);
      if !ok {
        return;
      }
    }
    ok := ValidateEntitlements(p.entitlements);
  }

  /** validateCatalog: with requireComplete the publish-time rules, without it the structural ones. */
  method ValidateCatalog(c: Content, requireComplete: bool) returns (ok: bool)
    ensures ok <==> CatalogOk(c, requireComplete)
  {
    var codes;
    ok, codes := ValidateMetrics(c.metrics);
    if !ok {
      return;
    }
    if requireComplete && |c.plans| == 0 {
      return false;
    }
    var planCodes: set<string> := {};
    for i := 0 to |c.plans|
      invariant forall j | 0 <= j < i :: PlanOk(c.plans[j], codes, requireComplete)
      invariant forall k :: k in planCodes <==> exists j :: 0 <= j < i && c.plans[j].code == k
      invariant forall j, k | 0 <= j < k < i :: c.plans[j].code != c.plans[k].code
    {
      var p := c.plans[i];
      if p.code in planCodes {
        return false;
      }
      planCodes := planCodes + {p.code};
      ok := ValidatePlan(p, codes, requireComplete);
      if !ok {
        return;
      }
    }
    ok := true;
  }

  // ---- entitlement evaluation ----

  datatype Grant = Grant(key: string, valueType: ValueType, value: string)

  datatype Override = Override(key: string, valueType: ValueType, value: string, expiresAt: Option<int>)

  datatype Source = FromPlan | FromOverride

  datatype Evaluated = Evaluated(valueType: ValueType, value: string, source: Source, expiresAt: Option<int>)

  predicate Expired(o: Override, now: int) { o.expiresAt.Some? && now >= o.expiresAt.value }

  /** The last grant for a key. */
  function GrantFor(grants: seq<Grant>, key: string): Option<Evaluated> {
    if grants == [] then None
    else
      var g := grants[|grants| - 1];
      if g.key == key then Some(Evaluated(g.valueType, g.value, FromPlan, None))
      else GrantFor(grants[..|grants| - 1], key)
  }

  /** The last override for a key that has not expired. */
  function OverrideFor(overrides: seq<Override>, key: string, now: int): Option<Evaluated> {
    if overrides == [] then None
    else
      var o := overrides[|overrides| - 1];
      if o.key == key && !Expired(o, now) then Some(Evaluated(o.valueType, o.value, FromOverride, o.expiresAt))
      else OverrideFor(overrides[..|overrides| - 1], key, now)
  }

  /** What a key evaluates to: an override in force wins, else the plan's grant applies, if any. */
  function Effective(grants: seq<Grant>, overrides: seq<Override>, now: int, key: string): Option<Evaluated> {
    var o := OverrideFor(overrides, key, now);
    if o.Some? then o else GrantFor(grants, key)
  }

  method EvaluateEntitlements(grants: seq<Grant>, overrides: seq<Override>, now: int)
    returns (out: map<string, Evaluated>)
    ensures forall key: string ::
              Effective(grants, overrides, now, key) == if key in out then Some(out[key]) else None
  {
    out := map[];
    for i := 0 to |grants|
      invariant forall key: string :: GrantFor(grants[..i], key) == if key in out then Some(out[key]) else None
    {
      var g := grants[i];
      assert grants[..i + 1][..i] == grants[..i];
      out := out[g.key := Evaluated(g.valueType, g.value, FromPlan, None)];
    }
    assert grants[..|grants|] == grants;
    for i := 0 to |overrides|
      invariant forall key: string ::
          Effective(grants, overrides[..i], now, key) == if key in out then Some(out[key]) else None
    {
      var o := overrides[i];
      assert overrides[..i + 1][..i] == overrides[..i];
      if o.expiresAt.Some? && now >= o.expiresAt.value {
        continue;
      }
      out := out[o.key := Evaluated(o.valueType, o.value, FromOverride, o.expiresAt)];
    }
    assert overrides[..|overrides|] == overrides;
  }

  /** Entry by entry: the last override for a key that has not expired decides, and is still good before its expiry. */
  lemma {:induction false} LastOverride(grants: seq<Grant>, overrides: seq<Override>, i: nat, now: int)
    requires i < |overrides| && (overrides[i].expiresAt == None || now < overrides[i].expiresAt.value)
    requires forall j | i < j < |overrides| && overrides[j].key == overrides[i].key ::
               overrides[j].expiresAt.Some? && overrides[j].expiresAt.value <= now
    ensures var o := overrides[i];
            Effective(grants, overrides, now, o.key) == Some(Evaluated(o.valueType, o.value, FromOverride, o.expiresAt))
  {
    if i < |overrides| - 1 {
      LastOverride(grants, overrides[..|overrides| - 1], i, now);
    }
  }

  /** Without one the last grant for the key applies. */
  lemma {:induction false} LastGrant(grants: seq<Grant>, overrides: seq<Override>, i: nat, now: int)
    requires i < |grants| && forall j | i < j < |grants| :: grants[j].key != grants[i].key
    requires forall j | 0 <= j < |overrides| && overrides[j].key == grants[i].key ::
               overrides[j].expiresAt.Some? && overrides[j].expiresAt.value <= now
    ensures var g := grants[i];
            Effective(grants, overrides, now, g.key) == Some(Evaluated(g.valueType, g.value, FromPlan, None))
  {
    OverrideForIff(overrides, grants[i].key, now);
    if i < |grants| - 1 {
      LastGrant(grants[..|grants| - 1], overrides, i, now);
    }
  }

  /** The clock alone changes an evaluation only by letting an override expire. */
  lemma {:induction false} OnlyExpiryChanges(grants: seq<Grant>, overrides: seq<Override>, now: int, later: int,
                                             key: string)
    requires now <= later
    requires forall o | o in overrides && o.key == key :: Expired(o, later) ==> Expired(o, now)
    ensures Effective(grants, overrides, now, key) == Effective(grants, overrides, later, key)
  {
    if overrides != [] {
      OnlyExpiryChanges(grants, overrides[..|overrides| - 1], now, later, key);
      assert overrides[|overrides| - 1] in overrides;
    }
  }

  /** An override in force wins over the plan; without one, exactly the plan's keys are granted. */
  lemma {:induction false} OverrideWins(grants: seq<Grant>, overrides: seq<Override>, now: int, key: string)
    ensures var e := Effective(grants, overrides, now, key);
            var overridden := exists o :: o in overrides && o.key == key
                                          && (o.expiresAt == None || now < o.expiresAt.value);
            && (overridden ==> e.Some? && e.value.source == FromOverride)
            && (!overridden ==> (e.Some? <==> exists g :: g in grants && g.key == key))
            && (!overridden && e.Some? ==> e.value.source == FromPlan)
  {
    OverrideForIff(overrides, key, now);
    GrantForIff(grants, key);
  }

  lemma {:induction false} OverrideForIff(overrides: seq<Override>, key: string, now: int)
    ensures OverrideFor(overrides, key, now).Some? <==>
            exists o :: o in overrides && o.key == key && !Expired(o, now)
    ensures OverrideFor(overrides, key, now).Some? ==> OverrideFor(overrides, key, now).value.source == FromOverride
  {
    if overrides != [] {
      OverrideForIff(overrides[..|overrides| - 1], key, now);
      assert overrides == overrides[..|overrides| - 1] + [overrides[|overrides| - 1]];
    }
  }

  lemma {:induction false} GrantForIff(grants: seq<Grant>, key: string)
    ensures GrantFor(grants, key).Some? <==> exists g :: g in grants && g.key == key
    ensures GrantFor(grants, key).Some? ==> GrantFor(grants, key).value.source == FromPlan
  {
    if grants != [] {
      GrantForIff(grants[..|grants| - 1], key);
      assert grants == grants[..|grants| - 1] + [grants[|grants| - 1]];
    }
  }
}
