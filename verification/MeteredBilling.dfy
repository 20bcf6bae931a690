/**
 * Metered pricing: the per-unit, tiered, volume and stair-step cost of a quantity, computed in
 * 64-bit integers that wrap around.
 */
module MeteredBilling {
  import opened Prelude

  /** One entry of tier_config; absent or non-numeric properties are None. */
  datatype Tier = Tier(upTo: Option<int>, price: Option<int>, flatFee: Option<int>)

  datatype Model = PerUnit | Tiered | Volume | StairStep | Unknown

  /** A tier_config that cannot be decoded behaves like an empty list. */
  datatype Rule = Rule(enabled: bool, model: Model, basePrice: int, tiers: seq<Tier>, minimumSpend: int) {
    predicate Valid() {
      && Is64(basePrice) && Is64(minimumSpend)
      && forall t | t in tiers :: Is64Or(t.upTo) && Is64Or(t.price) && Is64Or(t.flatFee)
    }
  }

  predicate Is64Or(x: Option<int>) { x.Some? ==> Is64(x.value) }

  function Or(x: Option<int>, default: int): int {
    if x.Some? then x.value else default
  }

  // ---- tiered pricing, unit by unit ----

  /** A bounded tier with the price its units have. */
  datatype Rung = Rung(limit: int, price: int)

  /** The bounded tiers, in the order listed. */
  function Ladder(base: int, tiers: seq<Tier>): seq<Rung> {
    if tiers == [] then []
    else (if tiers[0].upTo.Some? then [Rung(tiers[0].upTo.value, Or(tiers[0].price, base))] else [])
         + Ladder(base, tiers[1..])
  }

  /** The longest prefix whose limits keep strictly rising above `floor`. */
  function Rising(rungs: seq<Rung>, floor: int): seq<Rung> {
    if rungs == [] || rungs[0].limit <= floor then []
    else [rungs[0]] + Rising(rungs[1..], rungs[0].limit)
  }

  /** The price of the u-th unit: that of the first tier reaching it, or 0 past the last. */
  function UnitPrice(rungs: seq<Rung>, u: int): int {
    if rungs == [] then 0
    else if u <= rungs[0].limit then rungs[0].price
    else UnitPrice(rungs[1..], u)
  }

  /** What units 1 to `n` cost, each at its own price. */
  function Total(rungs: seq<Rung>, n: int): int
    decreases n
  {
    if n <= 0 then 0 else Total(rungs, n - 1) + UnitPrice(rungs, n)
  }

  function Rungs(rule: Rule): seq<Rung> {
    Rising(Ladder(rule.basePrice, rule.tiers), 0)
  }

  /** No intermediate value leaves 64 bits: prices in [0, p], p * quantity and the limits fit. */
  ghost predicate Fits(rule: Rule, quantity: int, p: nat) {
    && rule.Valid() && Is64(quantity)
    && p * Max(quantity, 0) <= MAX64
    && forall r | r in Ladder(rule.basePrice, rule.tiers) :: 0 <= r.price <= p && Is64(r.limit - Max(quantity, 0))
  }

  lemma {:induction false} StretchCost(rungs: seq<Rung>, a: nat, b: nat, price: int)
    requires a <= b && forall u | a < u <= b :: UnitPrice(rungs, u) == price
    ensures Total(rungs, b) == Total(rungs, a) + price * (b - a)
  {
    if a < b {
      StretchCost(rungs, a, b - 1, price);
      assert price * (b - a) == price * (b - 1 - a) + price;
    }
  }

  /** One tier's charge keeps the running total within p per unit, hence within 64 bits. */
  lemma ChargeFits(total: int, price: int, taken: nat, done: nat, quantity: nat, p: nat)
    requires 0 <= price <= p && done + taken <= quantity && p * quantity <= MAX64
    requires 0 <= total <= p * done
    ensures 0 <= price * taken <= MAX64
    ensures 0 <= total + price * taken <= p * (done + taken) <= MAX64
  {
    ScaleMonotone(price, p, taken);
    ScaleMonotone(done + taken, quantity, p);
    ScaleMonotone(taken, quantity, p);
    assert p * (done + taken) == p * done + p * taken;
  }

  /** The rungs still to come when `i` tiers have been visited. */
  function RungsLeft(rule: Rule, i: nat, prevLimit: int): seq<Rung>
    requires i <= |rule.tiers|
  {
    Rising(Ladder(rule.basePrice, rule.tiers[i..]), prevLimit)
  }

  /** Units 1 to prevLimit are charged; the later ones are priced by the rungs still to come. */
  ghost predicate Progress(rule: Rule, quantity: int, p: nat, i: nat, total: int, remaining: int, prevLimit: int) {
    && i <= |rule.tiers|
    && remaining == quantity - prevLimit
    && 0 <= prevLimit <= Max(quantity, 0)
    && total == Total(Rungs(rule), prevLimit)
    && 0 <= total <= p * prevLimit
    && SamePriceAbove(Rungs(rule), RungsLeft(rule, i, prevLimit), prevLimit)
  }

  /** What the next tier contributes: nothing if unbounded or not rising, else one rung. */
  lemma NextRung(rule: Rule, i: nat, prevLimit: int)
    requires i < |rule.tiers|
    ensures var tier := rule.tiers[i];
            RungsLeft(rule, i, prevLimit)
            == if tier.upTo.None? then RungsLeft(rule, i + 1, prevLimit)
               else if tier.upTo.value <= prevLimit then []
               else [Rung(tier.upTo.value, Or(tier.price, rule.basePrice))] + RungsLeft(rule, i + 1, tier.upTo.value)
  {
    var tier := rule.tiers[i];
    var ladder, later := Ladder(rule.basePrice, rule.tiers[i..]), Ladder(rule.basePrice, rule.tiers[i + 1..]);
    assert rule.tiers[i..][0] == tier && rule.tiers[i..][1..] == rule.tiers[i + 1..];
    if tier.upTo.None? {
      assert ladder == later;
    } else {
      assert ladder == [Rung(tier.upTo.value, Or(tier.price, rule.basePrice))] + later;
      assert ladder[1..] == later;
    }
  }

  /** The price of a bounded tier, and its distance from the quantity, are within the limits that fit. */
  lemma TierFits(rule: Rule, quantity: int, p: nat, i: nat)
    requires i < |rule.tiers| && Fits(rule, quantity, p) && rule.tiers[i].upTo.Some?
    ensures 0 <= Or(rule.tiers[i].price, rule.basePrice) <= p
    ensures Is64(rule.tiers[i].upTo.value - Max(quantity, 0))
  {
    LadderMember(rule.basePrice, rule.tiers, i);
    var rung := Rung(rule.tiers[i].upTo.value, Or(rule.tiers[i].price, rule.basePrice));
    assert 0 <= rung.price <= p && Is64(rung.limit - Max(quantity, 0));
  }

  /** What a rising tier adds to the total, and which rungs it leaves. */
  lemma TierTaken(rule: Rule, i: nat, prevLimit: nat, taken: nat)
    requires i < |rule.tiers| && rule.tiers[i].upTo.Some? && 0 < taken <= rule.tiers[i].upTo.value - prevLimit
    requires SamePriceAbove(Rungs(rule), RungsLeft(rule, i, prevLimit), prevLimit)
    ensures Total(Rungs(rule), prevLimit + taken)
         == Total(Rungs(rule), prevLimit) + Or(rule.tiers[i].price, rule.basePrice) * taken
    ensures var limit := rule.tiers[i].upTo.value; SamePriceAbove(Rungs(rule), RungsLeft(rule, i + 1, limit), limit)
  {
    NextRung(rule, i, prevLimit);
    var rest := RungsLeft(rule, i, prevLimit);
    TakeRung(Rungs(rule), rest, prevLimit, prevLimit + taken);
    assert rest[1..] == RungsLeft(rule, i + 1, rule.tiers[i].upTo.value);
  }

  /** A tier is charged within 64 bits, for the units it still has or for all that remain. */
  lemma ChargeTier(rule: Rule, quantity: int, p: nat, i: nat, total: int, remaining: int, prevLimit: int, taken: int)
    requires i < |rule.tiers| && Fits(rule, quantity, p) && rule.tiers[i].upTo.Some?
    requires Progress(rule, quantity, p, i, total, remaining, prevLimit)
    requires 0 < taken == Min(rule.tiers[i].upTo.value - prevLimit, remaining)
    ensures var charge := Or(rule.tiers[i].price, rule.basePrice) * taken;
            && Is64(charge) && Is64(total + charge) && Is64(remaining - taken)
            && (remaining - taken <= 0 ==> total + charge == Total(Rungs(rule), quantity))
            && (remaining - taken > 0 ==>
                Progress(rule, quantity, p, i + 1, total + charge, remaining - taken, rule.tiers[i].upTo.value))
  {
    TierFits(rule, quantity, p, i);
    ChargeFits(total, Or(rule.tiers[i].price, rule.basePrice), taken, prevLimit, quantity, p);
    TierTaken(rule, i, prevLimit, taken);
  }

  /** The units tier `i` takes of those that remain. */
  function Taken(rule: Rule, i: nat, remaining: int, prevLimit: int): int
    requires i < |rule.tiers| && rule.tiers[i].upTo.Some?
  {
    Min(Wrap(rule.tiers[i].upTo.value - prevLimit), remaining)
  }

  function Charged(rule: Rule, i: nat, total: int, taken: int): int
    requires i < |rule.tiers|
  {
    Wrap(total + Wrap(Or(rule.tiers[i].price, rule.basePrice) * taken))
  }

  /** One turn of the loop over the tiers: it settles the bill or goes on with the next tier. */
  lemma VisitTier(rule: Rule, quantity: int, p: nat, i: nat, total: int, remaining: int, prevLimit: int)
    requires i < |rule.tiers| && Fits(rule, quantity, p) && rule.tiers[i].upTo.Some?
    requires Progress(rule, quantity, p, i, total, remaining, prevLimit)
    ensures var limit := rule.tiers[i].upTo.value;
            var taken := Taken(rule, i, remaining, prevLimit);
            if taken <= 0 then total == Total(Rungs(rule), quantity)
            else if Wrap(remaining - taken) <= 0 then Charged(rule, i, total, taken) == Total(Rungs(rule), quantity)
            else Progress(rule, quantity, p, i + 1, Charged(rule, i, total, taken), Wrap(remaining - taken), limit)
  {
    var taken := Min(rule.tiers[i].upTo.value - prevLimit, remaining);
    TierFits(rule, quantity, p, i);
    if taken <= 0 {
      NextRung(rule, i, prevLimit);
      NothingLeft(Rungs(rule), RungsLeft(rule, i, prevLimit), prevLimit, quantity);
    } else {
      ChargeTier(rule, quantity, p, i, total, remaining, prevLimit, taken);
    }
  }

  lemma NothingCharged(rule: Rule, quantity: int, p: nat)
    requires Fits(rule, quantity, p)
    ensures Progress(rule, quantity, p, 0, 0, quantity, 0)
  {
    assert rule.tiers[0..] == rule.tiers;
  }

  lemma AllVisited(rule: Rule, quantity: int, p: nat, total: int, remaining: int, prevLimit: int)
    requires Progress(rule, quantity, p, |rule.tiers|, total, remaining, prevLimit)
    ensures total == Total(Rungs(rule), quantity)
  {
    NothingLeft(Rungs(rule), [], prevLimit, quantity);
  }

  lemma {:induction false} LadderMember(base: int, tiers: seq<Tier>, i: nat)
    requires i < |tiers| && tiers[i].upTo.Some?
    ensures Rung(tiers[i].upTo.value, Or(tiers[i].price, base)) in Ladder(base, tiers)
  {
    if i > 0 {
      LadderMember(base, tiers[1..], i - 1);
    }
  }

  ghost predicate SamePriceAbove(all: seq<Rung>, rest: seq<Rung>, floor: int) {
    forall u | u > floor :: UnitPrice(all, u) == UnitPrice(rest, u)
  }

  lemma TakeRung(all: seq<Rung>, rest: seq<Rung>, a: nat, b: nat)
    requires rest != [] && a <= b <= rest[0].limit && SamePriceAbove(all, rest, a)
    ensures Total(all, b) == Total(all, a) + rest[0].price * (b - a)
    ensures SamePriceAbove(all, rest[1..], rest[0].limit)
  {
    StretchCost(all, a, b, rest[0].price);
  }

  lemma NothingLeft(all: seq<Rung>, rest: seq<Rung>, a: nat, quantity: int)
    requires rest == [] || quantity <= a
    requires a <= Max(quantity, 0) && SamePriceAbove(all, rest, a)
    ensures Total(all, quantity) == Total(all, a)
  {
    if quantity > 0 {
      StretchCost(all, a, quantity, 0);
    }
  }

  /** What the loop over the tiers comes to from tier `i` on. */
  function BillFrom(rule: Rule, i: nat, total: int, remaining: int, prevLimit: int): int
    requires i <= |rule.tiers|
    decreases |rule.tiers| - i
  {
    if i == |rule.tiers| then total
    else if rule.tiers[i].upTo.None? then BillFrom(rule, i + 1, total, remaining, prevLimit)
    else
      var taken := Taken(rule, i, remaining, prevLimit);
      if taken <= 0 then total
      else if Wrap(remaining - taken) <= 0 then Charged(rule, i, total, taken)
      else BillFrom(rule, i + 1, Charged(rule, i, total, taken), Wrap(remaining - taken), rule.tiers[i].upTo.value)
  }

  lemma {:induction false} BillIsTotal(rule: Rule, quantity: int, p: nat, i: nat, total: int, remaining: int,
                                       prevLimit: int)
    requires Fits(rule, quantity, p) && Progress(rule, quantity, p, i, total, remaining, prevLimit)
    ensures BillFrom(rule, i, total, remaining, prevLimit) == Total(Rungs(rule), quantity)
    decreases |rule.tiers| - i
  {
    if i == |rule.tiers| {
      AllVisited(rule, quantity, p, total, remaining, prevLimit);
    } else if rule.tiers[i].upTo.None? {
      NextRung(rule, i, prevLimit);
      BillIsTotal(rule, quantity, p, i + 1, total, remaining, prevLimit);
    } else {
      VisitTier(rule, quantity, p, i, total, remaining, prevLimit);
      var taken := Taken(rule, i, remaining, prevLimit);
      if taken > 0 && Wrap(remaining - taken) > 0 {
        var total', remaining' := Charged(rule, i, total, taken), Wrap(remaining - taken);
        BillIsTotal(rule, quantity, p, i + 1, total', remaining', rule.tiers[i].upTo.value);
      }
    }
  }

  /**
   * Tiered cost.  With no tiers it is the base price times the quantity, the minimum spend
   * notwithstanding; otherwise it is what the units cost one by one, or the minimum spend if that is
   * more, whenever that arithmetic fits 64 bits.
   */
  method CalculateTieredCost(rule: Rule, quantity: int, ghost p: nat) returns (cost: int)
    requires rule.Valid() && Is64(quantity)
    ensures rule.tiers == [] ==> cost == Wrap(rule.basePrice * quantity)
    ensures rule.tiers != [] && Fits(rule, quantity, p) ==>
            cost == Max(Total(Rungs(rule), quantity), rule.minimumSpend)
    ensures cost >= rule.minimumSpend <==> rule.tiers != [] || Wrap(rule.basePrice * quantity) >= rule.minimumSpend
  {
    if |rule.tiers| == 0 {
      return Wrap(rule.basePrice * quantity);
    }
    var total, remaining, prevLimit := 0, quantity, 0;
    ghost var bill := BillFrom(rule, 0, total, remaining, prevLimit);
    var i := 0;
    while i < |rule.tiers|
      invariant 0 <= i <= |rule.tiers|
      invariant BillFrom(rule, i, total, remaining, prevLimit) == bill
    {
      var tier := rule.tiers[i];
      i := i + 1;
      if tier.upTo.None? {
        continue;
      }
      var limit := tier.upTo.value;
      var tierQty := Wrap(limit - prevLimit);
      tierQty := Min(tierQty, remaining);
      if tierQty <= 0 {
        break;
      }
      var pricePerUnit := Or(tier.price, rule.basePrice);
      total := Wrap(total + Wrap(pricePerUnit * tierQty));
      remaining := Wrap(remaining - tierQty);
      prevLimit := limit;
      if remaining <= 0 {
        break;
      }
    }
    assert total == bill;
    if Fits(rule, quantity, p) {
      NothingCharged(rule, quantity, p);
      BillIsTotal(rule, quantity, p, 0, 0, quantity, 0);
    }
    if total < rule.minimumSpend {
      return rule.minimumSpend;
    }
    return total;
  }

  // ---- tiered pricing in terms of the tiers as listed ----

  lemma {:induction false} UnitPriceFrom(base: int, tiers: seq<Tier>, floor: int, k: nat, u: int)
    requires k < |tiers| && tiers[k].upTo.Some? && u <= tiers[k].upTo.value
    requires forall j | 0 <= j < k && tiers[j].upTo.Some? :: tiers[j].upTo.value < u
    requires forall i, j | 0 <= i < j <= k && tiers[i].upTo.Some? && tiers[j].upTo.Some? ::
               tiers[i].upTo.value < tiers[j].upTo.value
    requires forall j | 0 <= j <= k && tiers[j].upTo.Some? :: floor < tiers[j].upTo.value
    ensures UnitPrice(Rising(Ladder(base, tiers), floor), u) ==
            if tiers[k].price.Some? then tiers[k].price.value else base
  {
    LadderHead(base, tiers);
    if k > 0 {
      var rest, next := tiers[1..], if tiers[0].upTo.Some? then tiers[0].upTo.value else floor;
      assert rest[k - 1] == tiers[k];
      UnitPriceFrom(base, rest, next, k - 1, u);
    }
  }

  lemma LadderHead(base: int, tiers: seq<Tier>)
    requires tiers != []
    ensures var rest := Ladder(base, tiers[1..]);
            if tiers[0].upTo.None? then Ladder(base, tiers) == rest
            else Ladder(base, tiers) != [] && Ladder(base, tiers)[1..] == rest
                 && Ladder(base, tiers)[0] == Rung(tiers[0].upTo.value, Or(tiers[0].price, base))
  {
  }

  /**
   * The tiered bill, unit by unit: as long as the limits of the bounded tiers rise, the u-th unit costs what
   * the first of them to reach it states, or the base price.
   */
  lemma TieredUnit(rule: Rule, k: nat, u: int)
    requires k < |rule.tiers| && rule.tiers[k].upTo.Some? && 0 < u <= rule.tiers[k].upTo.value
    requires forall j | 0 <= j < k && rule.tiers[j].upTo.Some? :: rule.tiers[j].upTo.value < u
    requires forall i, j | 0 <= i < j <= k && rule.tiers[i].upTo.Some? && rule.tiers[j].upTo.Some? ::
               rule.tiers[i].upTo.value < rule.tiers[j].upTo.value
    requires forall j | 0 <= j <= k && rule.tiers[j].upTo.Some? :: 0 < rule.tiers[j].upTo.value
    ensures Total(Rungs(rule), u) - Total(Rungs(rule), u - 1) ==
            if rule.tiers[k].price.Some? then rule.tiers[k].price.value else rule.basePrice
  {
    UnitPriceFrom(rule.basePrice, rule.tiers, 0, k, u);
  }

  lemma {:induction false} NothingReaches(base: int, tiers: seq<Tier>, floor: int, u: int)
    requires forall j | 0 <= j < |tiers| && tiers[j].upTo.Some? :: tiers[j].upTo.value < u
    ensures UnitPrice(Rising(Ladder(base, tiers), floor), u) == 0
  {
    if tiers != [] {
      LadderHead(base, tiers);
      NothingReaches(base, tiers[1..], floor, u);
      if tiers[0].upTo.Some? {
        NothingReaches(base, tiers[1..], tiers[0].upTo.value, u);
      }
    }
  }

  /** Units that no bounded tier reaches cost nothing: an open tier charges nothing. */
  lemma TieredBeyond(rule: Rule, u: int)
    requires u > 0 && forall j | 0 <= j < |rule.tiers| && rule.tiers[j].upTo.Some? :: rule.tiers[j].upTo.value < u
    ensures Total(Rungs(rule), u) == Total(Rungs(rule), u - 1)
  {
    NothingReaches(rule.basePrice, rule.tiers, 0, u);
  }

  lemma {:induction false} CutFrom(base: int, tiers: seq<Tier>, floor: int, m: nat)
    requires m < |tiers| && tiers[m].upTo.Some?
    requires || tiers[m].upTo.value <= floor
             || exists j :: 0 <= j < m && tiers[j].upTo.Some? && tiers[m].upTo.value <= tiers[j].upTo.value
    ensures Rising(Ladder(base, tiers), floor) == Rising(Ladder(base, tiers[..m]), floor)
  {
    LadderHead(base, tiers);
    if m > 0 {
      LadderHead(base, tiers[..m]);
      assert tiers[..m][1..] == tiers[1..][..m - 1];
      var next := if tiers[0].upTo.Some? then tiers[0].upTo.value else floor;
      if tiers[0].upTo.None? || next > floor {
        CutStep(tiers, floor, m);
        CutFrom(base, tiers[1..], next, m - 1);
      }
    }
  }

  lemma CutStep(tiers: seq<Tier>, floor: int, m: nat)
    requires 0 < m < |tiers| && tiers[m].upTo.Some?
    requires tiers[0].upTo.None? || tiers[0].upTo.value > floor
    requires || tiers[m].upTo.value <= floor
             || exists j :: 0 <= j < m && tiers[j].upTo.Some? && tiers[m].upTo.value <= tiers[j].upTo.value
    ensures var next := if tiers[0].upTo.Some? then tiers[0].upTo.value else floor;
            || tiers[1..][m - 1].upTo.value <= next
            || exists j :: 0 <= j < m - 1 && tiers[1..][j].upTo.Some?
                           && tiers[1..][m - 1].upTo.value <= tiers[1..][j].upTo.value
  {
    if tiers[m].upTo.value > floor {
      var j :| 0 <= j < m && tiers[j].upTo.Some? && tiers[m].upTo.value <= tiers[j].upTo.value;
      if j > 0 {
        assert tiers[1..][j - 1] == tiers[j];
      }
    }
  }

  /** A bounded tier whose limit does not rise ends the list: it and all later tiers have no effect. */
  lemma TieredCutOff(rule: Rule, m: nat, quantity: int)
    requires m < |rule.tiers| && rule.tiers[m].upTo.Some?
    requires || rule.tiers[m].upTo.value <= 0
             || exists j :: 0 <= j < m && rule.tiers[j].upTo.Some?
                            && rule.tiers[m].upTo.value <= rule.tiers[j].upTo.value
    ensures Total(Rungs(rule), quantity) == Total(Rungs(rule.(tiers := rule.tiers[..m])), quantity)
  {
    CutFrom(rule.basePrice, rule.tiers, 0, m);
  }

  // ---- volume and stair-step pricing ----

  /** The tier a quantity falls into: the first bounded tier reaching it, or else the last tier. */
  function TierOf(tiers: seq<Tier>, quantity: int): (k: nat)
    requires tiers != []
    ensures k < |tiers|
    ensures k < |tiers| - 1 ==> Reaches(tiers[k], quantity)
    ensures forall j | 0 <= j < k :: !Reaches(tiers[j], quantity)
  {
    if |tiers| == 1 || Reaches(tiers[0], quantity) then 0 else TierOf(tiers[1..], quantity) + 1
  }

  predicate Reaches(t: Tier, quantity: int) {
    t.upTo.Some? && quantity <= t.upTo.value
  }

  /** The last value stated in a list of optional values, or the default if none is. */
  function LastStated(xs: seq<Option<int>>, default: int): int {
    if xs == [] then default
    else if xs[|xs| - 1].Some? then xs[|xs| - 1].value
    else LastStated(xs[..|xs| - 1], default)
  }

  lemma LastStatedAt(xs: seq<Option<int>>, k: nat, default: int)
    requires k < |xs| && xs[k].Some?
    ensures LastStated(xs[..k + 1], default) == xs[k].value
  {
    assert xs[..k + 1][k] == xs[k];
  }

  function Prices(tiers: seq<Tier>): (xs: seq<Option<int>>)
    ensures |xs| == |tiers| && forall i | 0 <= i < |xs| :: xs[i] == tiers[i].price
  {
    seq(|tiers|, i requires 0 <= i < |tiers| => tiers[i].price)
  }

  function FlatFees(tiers: seq<Tier>): (xs: seq<Option<int>>)
    ensures |xs| == |tiers| && forall i | 0 <= i < |xs| :: xs[i] == tiers[i].flatFee
  {
    seq(|tiers|, i requires 0 <= i < |tiers| => tiers[i].flatFee)
  }

  /** The unit price of all units: the last one stated up to the tier the quantity falls into. */
  function VolumePrice(rule: Rule, quantity: int): int {
    if rule.tiers == [] then rule.basePrice
    else LastStated(Prices(rule.tiers)[..TierOf(rule.tiers, quantity) + 1], rule.basePrice)
  }

  /** The fee of the tier the quantity falls into, or the last one stated before it. */
  function StairStepFee(rule: Rule, quantity: int): int {
    if rule.tiers == [] then rule.basePrice
    else LastStated(FlatFees(rule.tiers)[..TierOf(rule.tiers, quantity) + 1], rule.basePrice)
  }

  /** The tier a quantity falls into is the first to reach it, or else the last. */
  lemma TierReached(tiers: seq<Tier>, quantity: int, n: nat)
    requires 0 < n <= |tiers|
    requires forall j | 0 <= j < n - 1 && tiers[j].upTo.Some? :: tiers[j].upTo.value < quantity
    requires n < |tiers| ==> tiers[n - 1].upTo.Some? && quantity <= tiers[n - 1].upTo.value
    ensures TierOf(tiers, quantity) == n - 1
  {
    var k := TierOf(tiers, quantity);
    assert k < n - 1 ==> Reaches(tiers[k], quantity);
    assert n - 1 < k ==> !Reaches(tiers[n - 1], quantity);
  }

  lemma {:induction false} LastStatedFrom(xs: seq<Option<int>>, n: nat, source: int, default: int)
    requires -1 <= source < n <= |xs| || (source == -1 && n == 0)
    requires forall j | source < j < n :: xs[j].None?
    requires source >= 0 ==> xs[source].Some?
    ensures LastStated(xs[..n], default) == if source >= 0 then xs[source].value else default
  {
    if source < n - 1 {
      LastStatedFrom(xs, n - 1, source, default);
      assert xs[..n][..n - 1] == xs[..n - 1];
    }
  }

  lemma VolumePriceIs(rule: Rule, quantity: int, looked: nat, source: int)
    requires 0 < looked <= |rule.tiers|
    requires forall j | 0 <= j < looked - 1 && rule.tiers[j].upTo.Some? :: rule.tiers[j].upTo.value < quantity
    requires looked < |rule.tiers| ==>
               rule.tiers[looked - 1].upTo.Some? && quantity <= rule.tiers[looked - 1].upTo.value
    requires -1 <= source < looked && forall j | source < j < looked :: rule.tiers[j].price.None?
    requires source >= 0 ==> rule.tiers[source].price.Some?
    ensures VolumePrice(rule, quantity) == if source >= 0 then rule.tiers[source].price.value else rule.basePrice
  {
    TierReached(rule.tiers, quantity, looked);
    LastStatedFrom(Prices(rule.tiers), looked, source, rule.basePrice);
  }

  method CalculateVolumeCost(rule: Rule, quantity: int) returns (cost: int, ghost looked: nat, ghost source: int)
    ensures cost == Wrap(VolumePrice(rule, quantity) * quantity)
    ensures looked <= |rule.tiers|
    ensures forall j | 0 <= j < looked - 1 && rule.tiers[j].upTo.Some? :: rule.tiers[j].upTo.value < quantity
    ensures looked < |rule.tiers| ==>
              looked > 0 && rule.tiers[looked - 1].upTo.Some? && quantity <= rule.tiers[looked - 1].upTo.value
    ensures -1 <= source < looked && forall j | source < j < looked :: rule.tiers[j].price.None?
    ensures source >= 0 ==> rule.tiers[source].price.Some? && cost == Wrap(rule.tiers[source].price.value * quantity)
    ensures source == -1 ==> cost == Wrap(rule.basePrice * quantity)
  {
    if |rule.tiers| == 0 {
      return Wrap(rule.basePrice * quantity), 0, -1;
    }
    var pricePerUnit := rule.basePrice;
    source := -1;
    for i := 0 to |rule.tiers|
      invariant forall j | 0 <= j < i && rule.tiers[j].upTo.Some? :: rule.tiers[j].upTo.value < quantity
      invariant -1 <= source < i && forall j | source < j < i :: rule.tiers[j].price.None?
      invariant if source == -1 then pricePerUnit == rule.basePrice else rule.tiers[source].price == Some(pricePerUnit)
    {
      var tier := rule.tiers[i];
      if tier.upTo.Some? && quantity <= tier.upTo.value {
        if tier.price.Some? {
          pricePerUnit := tier.price.value;
          source := i;
        }
        VolumePriceIs(rule, quantity, i + 1, source);
        return Wrap(pricePerUnit * quantity), i + 1, source;
      }
      if tier.price.Some? {
        pricePerUnit := tier.price.value;
        source := i;
      }
    }
    VolumePriceIs(rule, quantity, |rule.tiers|, source);
    return Wrap(pricePerUnit * quantity), |rule.tiers|, source;
  }

  lemma StairStepFeeIs(rule: Rule, quantity: int, looked: nat, source: int)
    requires 0 < looked <= |rule.tiers|
    requires forall j | 0 <= j < looked - 1 && rule.tiers[j].upTo.Some? :: rule.tiers[j].upTo.value < quantity
    requires looked < |rule.tiers| ==>
               rule.tiers[looked - 1].upTo.Some? && quantity <= rule.tiers[looked - 1].upTo.value
    requires -1 <= source < looked && forall j | source < j < looked :: rule.tiers[j].flatFee.None?
    requires source >= 0 ==> rule.tiers[source].flatFee.Some?
    ensures StairStepFee(rule, quantity) == if source >= 0 then rule.tiers[source].flatFee.value else rule.basePrice
  {
    TierReached(rule.tiers, quantity, looked);
    LastStatedFrom(FlatFees(rule.tiers), looked, source, rule.basePrice);
  }

  method CalculateStairStepCost(rule: Rule, quantity: int) returns (cost: int, ghost looked: nat, ghost source: int)
    ensures cost == StairStepFee(rule, quantity)
    ensures looked <= |rule.tiers|
    ensures forall j | 0 <= j < looked - 1 && rule.tiers[j].upTo.Some? :: rule.tiers[j].upTo.value < quantity
    ensures looked < |rule.tiers| ==>
              looked > 0 && rule.tiers[looked - 1].upTo.Some? && quantity <= rule.tiers[looked - 1].upTo.value
    ensures -1 <= source < looked && forall j | source < j < looked :: rule.tiers[j].flatFee.None?
    ensures source >= 0 ==> rule.tiers[source].flatFee.Some? && cost == rule.tiers[source].flatFee.value
    ensures source == -1 ==> cost == rule.basePrice
  {
    if |rule.tiers| == 0 {
      return rule.basePrice, 0, -1;
    }
    var flatFee := rule.basePrice;
    source := -1;
    for i := 0 to |rule.tiers|
      invariant forall j | 0 <= j < i && rule.tiers[j].upTo.Some? :: rule.tiers[j].upTo.value < quantity
      invariant -1 <= source < i && forall j | source < j < i :: rule.tiers[j].flatFee.None?
      invariant if source == -1 then flatFee == rule.basePrice else rule.tiers[source].flatFee == Some(flatFee)
    {
      var tier := rule.tiers[i];
      if tier.upTo.Some? && quantity <= tier.upTo.value {
        if tier.flatFee.Some? {
          flatFee := tier.flatFee.value;
          source := i;
        }
        StairStepFeeIs(rule, quantity, i + 1, source);
        return flatFee, i + 1, source;
      }
      if tier.flatFee.Some? {
        flatFee := tier.flatFee.value;
        source := i;
      }
    }
    StairStepFeeIs(rule, quantity, |rule.tiers|, source);
    return flatFee, |rule.tiers|, source;
  }

  /** The dispatch on the pricing model; a missing or disabled rule costs nothing. */
  method CalculateMeteredCost(rule: Option<Rule>, quantity: int, ghost p: nat) returns (cost: int)
    requires Is64(quantity) && (rule.Some? ==> rule.value.Valid())
    ensures rule.None? || !rule.value.enabled ==> cost == 0
    ensures rule.Some? && rule.value.enabled ==>
            match rule.value.model
            case Volume => cost == Wrap(VolumePrice(rule.value, quantity) * quantity)
            case StairStep => cost == StairStepFee(rule.value, quantity)
            case Tiered => rule.value.tiers != [] && Fits(rule.value, quantity, p) ==>
                           cost == Max(Total(Rungs(rule.value), quantity), rule.value.minimumSpend)
            case _ => cost == Wrap(rule.value.basePrice * quantity)
    ensures rule.Some? && rule.value.enabled && rule.value.model.Tiered? ==>
            (cost >= rule.value.minimumSpend <==>
             rule.value.tiers != [] || Wrap(rule.value.basePrice * quantity) >= rule.value.minimumSpend)
  {
    if rule.None? || !rule.value.enabled {
      return 0;
    }
    match rule.value.model
    case Volume =>
      ghost var looked, source;
      cost, looked, source := CalculateVolumeCost(rule.value, quantity);
    case Tiered => cost := CalculateTieredCost(rule.value, quantity, p);
    case StairStep =>
      ghost var looked, source;
      cost, looked, source := CalculateStairStepCost(rule.value, quantity);
    case PerUnit => cost := Wrap(rule.value.basePrice * quantity);
    case Unknown => cost := Wrap(rule.value.basePrice * quantity);
  }

  // ---- comparing the pricing models ----

  /** Sorted, fully bounded and priced tiers whose unit prices do not rise. */
  predicate Degressive(tiers: seq<Tier>) {
    && tiers != []
    && (forall t | t in tiers :: t.upTo.Some? && t.price.Some? && t.price.value >= 0)
    && tiers[0].upTo.value > 0
    && (forall i, j | 0 <= i < j < |tiers| :: tiers[i].upTo.value < tiers[j].upTo.value)
    && (forall i, j | 0 <= i < j < |tiers| :: tiers[i].price.value >= tiers[j].price.value)
  }

  /** The bill of a tiered rule. */
  function TieredBill(rule: Rule, quantity: int): int {
    Max(Total(Rungs(rule), quantity), rule.minimumSpend)
  }

  /** For sorted and bounded tiers no rung is dropped. */
  lemma {:induction false} AllRungsRise(base: int, tiers: seq<Tier>, floor: int)
    requires forall i | 0 <= i < |tiers| :: tiers[i].upTo.Some? && tiers[i].upTo.value > floor
    requires forall i, j | 0 <= i < j < |tiers| :: tiers[i].upTo.value < tiers[j].upTo.value
    ensures var rungs := Rising(Ladder(base, tiers), floor);
            |rungs| == |tiers|
            && forall i | 0 <= i < |tiers| :: rungs[i] == Rung(tiers[i].upTo.value, Or(tiers[i].price, base))
  {
    if tiers != [] {
      var first := Rung(tiers[0].upTo.value, Or(tiers[0].price, base));
      assert Ladder(base, tiers) == [first] + Ladder(base, tiers[1..]);
      assert Ladder(base, tiers)[1..] == Ladder(base, tiers[1..]);
      AllRungsRise(base, tiers[1..], first.limit);
      assert Rising(Ladder(base, tiers), floor) == [first] + Rising(Ladder(base, tiers[1..]), first.limit);
    }
  }

  predicate Falling(rungs: seq<Rung>) {
    && (forall i, j | 0 <= i < j < |rungs| :: rungs[i].limit < rungs[j].limit)
    && (forall i, j | 0 <= i < j < |rungs| :: rungs[i].price >= rungs[j].price)
    && NoRebates(rungs)
  }

  /** The rungs of degressive tiers are the tiers, one by one. */
  lemma DegressiveRungs(rule: Rule)
    requires Degressive(rule.tiers)
    ensures |Rungs(rule)| == |rule.tiers|
    ensures forall i | 0 <= i < |rule.tiers| ::
              Rungs(rule)[i] == Rung(rule.tiers[i].upTo.value, rule.tiers[i].price.value)
    ensures Falling(Rungs(rule))
  {
    forall t | t in rule.tiers
      ensures t.upTo.value > 0
    {
      var j :| 0 <= j < |rule.tiers| && rule.tiers[j] == t;
      if j > 0 {
        assert rule.tiers[0].upTo.value < rule.tiers[j].upTo.value;
      }
    }
    AllRungsRise(rule.basePrice, rule.tiers, 0);
    RungsFall(rule.tiers, Rungs(rule), rule.basePrice);
  }

  lemma RungsFall(tiers: seq<Tier>, rungs: seq<Rung>, base: int)
    requires Degressive(tiers) && |rungs| == |tiers|
    requires forall i | 0 <= i < |tiers| :: rungs[i] == Rung(tiers[i].upTo.value, Or(tiers[i].price, base))
    ensures Falling(rungs)
    ensures forall i | 0 <= i < |tiers| :: rungs[i] == Rung(tiers[i].upTo.value, tiers[i].price.value)
  {
    forall i | 0 <= i < |tiers|
      ensures rungs[i] == Rung(tiers[i].upTo.value, tiers[i].price.value) && rungs[i].price >= 0
    {
      assert tiers[i] in tiers;
    }
  }

  /** A later unit never costs more than an earlier one. */
  lemma {:induction false} UnitPriceFalls(rungs: seq<Rung>, u: int, v: int)
    requires Falling(rungs) && u <= v
    ensures 0 <= UnitPrice(rungs, v) <= UnitPrice(rungs, u)
    ensures rungs != [] ==> UnitPrice(rungs, v) <= rungs[0].price
  {
    if rungs != [] {
      assert rungs[0] in rungs;
      UnitPriceFalls(rungs[1..], v, v);
      if u > rungs[0].limit {
        UnitPriceFalls(rungs[1..], u, v);
      }
    }
  }

  predicate NoRebates(rungs: seq<Rung>) { forall r | r in rungs :: r.price >= 0 }

  lemma {:induction false} UnitPriceNotNegative(rungs: seq<Rung>, u: int)
    requires NoRebates(rungs)
    ensures UnitPrice(rungs, u) >= 0
  {
    if rungs != [] {
      assert rungs[0] in rungs;
      UnitPriceNotNegative(rungs[1..], u);
    }
  }

  /** More units never cost less. */
  lemma {:induction false} TotalMonotone(rungs: seq<Rung>, a: int, b: int)
    requires NoRebates(rungs) && a <= b
    ensures 0 <= Total(rungs, a) <= Total(rungs, b)
    decreases b
  {
    if b > 0 {
      UnitPriceNotNegative(rungs, b);
      TotalMonotone(rungs, if a < b then a else b - 1, b - 1);
    }
  }

  /** Units a+1 to a+b cost no more than units 1 to b. */
  lemma {:induction false} TotalSubadditive(rungs: seq<Rung>, a: nat, b: nat)
    requires Falling(rungs)
    ensures Total(rungs, a + b) <= Total(rungs, a) + Total(rungs, b)
  {
    if b > 0 {
      TotalSubadditive(rungs, a, b - 1);
      UnitPriceFalls(rungs, b, a + b);
    }
  }

  /** Tiered cost never falls as the quantity grows, unless a rung has a negative price, whatever the tiers. */
  lemma TieredMonotone(rule: Rule, a: int, b: int)
    requires NoRebates(Rungs(rule)) && a <= b
    ensures TieredBill(rule, a) <= TieredBill(rule, b)
  {
    TotalMonotone(Rungs(rule), a, b);
  }

  /** One bill for a + b units never exceeds separate bills for a and b, minimum spend included. */
  lemma TieredSubadditive(rule: Rule, a: nat, b: nat)
    requires Degressive(rule.tiers)
    ensures TieredBill(rule, a + b) <= TieredBill(rule, a) + TieredBill(rule, b)
  {
    DegressiveRungs(rule);
    TotalSubadditive(Rungs(rule), a, b);
    TotalMonotone(Rungs(rule), 0, a);
    TotalMonotone(Rungs(rule), 0, b);
  }

  lemma {:induction false} LastUnitCheapest(rungs: seq<Rung>, n: nat, last: int)
    requires Falling(rungs) && n <= last
    ensures n * UnitPrice(rungs, last) <= Total(rungs, n)
  {
    if n > 0 {
      LastUnitCheapest(rungs, n - 1, last);
      UnitPriceFalls(rungs, n, last);
      assert n * UnitPrice(rungs, last) == (n - 1) * UnitPrice(rungs, last) + UnitPrice(rungs, last);
    }
  }

  /** A unit has the price of the first rung that reaches it. */
  lemma {:induction false} UnitPriceOfTier(rungs: seq<Rung>, k: nat, u: int)
    requires k < |rungs| && u <= rungs[k].limit && forall j | 0 <= j < k :: u > rungs[j].limit
    ensures UnitPrice(rungs, u) == rungs[k].price
  {
    if k > 0 {
      assert u > rungs[0].limit;
      UnitPriceOfTier(rungs[1..], k - 1, u);
    }
  }

  /** When rungs are the tiers one by one, a covered quantity's last unit is priced by its tier. */
  lemma UnitPriceOfQuantity(tiers: seq<Tier>, rungs: seq<Rung>, quantity: int)
    requires tiers != [] && |rungs| == |tiers|
    requires forall i | 0 <= i < |tiers| :: tiers[i].upTo.Some? && rungs[i].limit == tiers[i].upTo.value
    requires quantity <= rungs[|rungs| - 1].limit
    ensures UnitPrice(rungs, quantity) == rungs[TierOf(tiers, quantity)].price
  {
    var k := TierOf(tiers, quantity);
    forall j | 0 <= j < k
      ensures quantity > rungs[j].limit
    {
      assert !Reaches(tiers[j], quantity);
    }
    UnitPriceOfTier(rungs, k, quantity);
  }

  /** Under degressive tiers volume pricing charges every unit the price of the last. */
  lemma VolumePriceIsLastUnits(rule: Rule, quantity: int)
    requires Degressive(rule.tiers) && quantity <= rule.tiers[|rule.tiers| - 1].upTo.value
    ensures VolumePrice(rule, quantity) == UnitPrice(Rungs(rule), quantity)
  {
    DegressiveRungs(rule);
    forall i | 0 <= i < |rule.tiers|
      ensures rule.tiers[i].upTo.Some? && rule.tiers[i].price.Some?
    {
      assert rule.tiers[i] in rule.tiers;
    }
    UnitPriceOfQuantity(rule.tiers, Rungs(rule), quantity);
    LastStatedAt(Prices(rule.tiers), TierOf(rule.tiers, quantity), rule.basePrice);
  }

  /** Volume pricing never costs more than the tiered total, for every quantity the tiers cover. */
  lemma VolumeAtMostTiered(rule: Rule, quantity: nat)
    requires Degressive(rule.tiers) && quantity <= rule.tiers[|rule.tiers| - 1].upTo.value
    ensures VolumePrice(rule, quantity) * quantity <= Total(Rungs(rule), quantity)
  {
    DegressiveRungs(rule);
    VolumePriceIsLastUnits(rule, quantity);
    LastUnitCheapest(Rungs(rule), quantity, quantity);
  }

  lemma TierOfRises(tiers: seq<Tier>, a: int, b: int)
    requires tiers != [] && a <= b
    ensures TierOf(tiers, a) <= TierOf(tiers, b)
  {
    var k := TierOf(tiers, b);
    assert k < |tiers| - 1 ==> Reaches(tiers[k], b) && Reaches(tiers[k], a);
  }

  /** A stair-step bill never falls as the quantity grows, when the fees do not fall. */
  lemma StairStepMonotone(rule: Rule, a: int, b: int)
    requires a <= b && rule.tiers != []
    requires forall t | t in rule.tiers :: t.flatFee.Some?
    requires forall i, j | 0 <= i < j < |rule.tiers| :: rule.tiers[i].flatFee.value <= rule.tiers[j].flatFee.value
    ensures StairStepFee(rule, a) <= StairStepFee(rule, b)
  {
    var j, k := TierOf(rule.tiers, a), TierOf(rule.tiers, b);
    assert rule.tiers[j] in rule.tiers && rule.tiers[k] in rule.tiers;
    LastStatedAt(FlatFees(rule.tiers), j, rule.basePrice);
    LastStatedAt(FlatFees(rule.tiers), k, rule.basePrice);
    TierOfRises(rule.tiers, a, b);
  }
}
