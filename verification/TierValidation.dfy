/**
 * Validation of the tiers of a tiered catalogue price.
 */
module TierValidation {
  import opened Prelude

  /** A tier covers the half-open range [fromValue, toValue); no toValue means no upper end. */
  datatype PriceTier = PriceTier(fromValue: Option<int>, toValue: Option<int>, unitAmountCents: Option<int>)

  /** The rules as they are checked: start at 0, contiguous, each range non-empty, the last one open. */
  predicate TiersOk(tiers: seq<PriceTier>) {
    && tiers != []
    && (forall i | 0 <= i < |tiers| :: TierOk(tiers, i))
    && tiers[|tiers| - 1].toValue.None?
  }

  predicate TierOk(tiers: seq<PriceTier>, i: nat)
    requires i < |tiers|
  {
    var t := tiers[i];
    && t.fromValue.Some?
    && (i == 0 ==> t.fromValue.value == 0)
    && (i > 0 ==> tiers[i - 1].toValue == Some(t.fromValue.value))
    && (t.toValue.Some? ==> t.fromValue.value < t.toValue.value)
  }

  method ValidateTiers(tiers: seq<PriceTier>) returns (ok: bool)
    ensures ok <==> PartitionsNaturals(tiers)
  {
    ValidIffPartition(tiers);
    if |tiers| == 0 {
      return false;
    }
    for i := 0 to |tiers|
      invariant forall j | 0 <= j < i :: TierOk(tiers, j)
    {
      var t := tiers[i];
      if t.fromValue.None? {
        assert !TierOk(tiers, i);
        return false;
      }
      if i == 0 && t.fromValue.value != 0 {
        assert !TierOk(tiers, i);
        return false;
      }
      if i > 0 {
        var prev := tiers[i - 1];
        if prev.toValue.None? {
          assert !TierOk(tiers, i);
          return false;
        }
        if prev.toValue.value != t.fromValue.value {
          assert !TierOk(tiers, i);
          return false;
        }
      }
      if t.toValue.Some? && t.toValue.value <= t.fromValue.value {
        assert !TierOk(tiers, i);
        return false;
      }
    }
    return tiers[|tiers| - 1].toValue.None?;
  }

  // ---- what a valid list of tiers is ----

  predicate Covers(t: PriceTier, n: int)
    requires t.fromValue.Some?
  {
    t.fromValue.value <= n && (t.toValue.Some? ==> n < t.toValue.value)
  }

  ghost predicate Covered(tiers: seq<PriceTier>, n: int)
    requires forall t | t in tiers :: t.fromValue.Some?
  {
    exists i :: 0 <= i < |tiers| && Covers(tiers[i], n)
  }

  /**
   * The tiers have lower ends and non-empty ranges, are listed in order, and together contain every
   * non-negative quantity exactly once and nothing else.
   */
  ghost predicate PartitionsNaturals(tiers: seq<PriceTier>) {
    && (forall t | t in tiers :: t.fromValue.Some?)
    && (forall t | t in tiers :: t.toValue.Some? ==> t.fromValue.value < t.toValue.value)
    && (forall i, j | 0 <= i < j < |tiers| :: tiers[i].fromValue.value <= tiers[j].fromValue.value)
    && (forall n: int :: n >= 0 <==> Covered(tiers, n))
    && (forall n: int, i, j | 0 <= i < j < |tiers| :: !(Covers(tiers[i], n) && Covers(tiers[j], n)))
  }

  /** The checked rules hold exactly for the lists that partition the natural numbers. */
  lemma ValidIffPartition(tiers: seq<PriceTier>)
    ensures TiersOk(tiers) <==> PartitionsNaturals(tiers)
  {
    if TiersOk(tiers) {
      ValidPartitions(tiers);
    }
    if PartitionsNaturals(tiers) {
      PartitionStartsAtZero(tiers);
      forall i | 0 <= i < |tiers|
        ensures TierOk(tiers, i)
      {
        assert tiers[i] in tiers;
        if i > 0 {
          PartitionContiguous(tiers, i);
        }
      }
      PartitionOpenEnded(tiers);
    }
  }

  /** In a valid list every tier starts no earlier than an earlier one ends. */
  lemma {:induction false} Ordered(tiers: seq<PriceTier>, i: nat, j: nat)
    requires TiersOk(tiers) && i < j < |tiers|
    ensures tiers[i].fromValue.Some? && tiers[j].fromValue.Some?
    ensures tiers[i].toValue.Some? && tiers[i].toValue.value <= tiers[j].fromValue.value
    ensures 0 <= tiers[i].fromValue.value < tiers[j].fromValue.value
    decreases j
  {
    assert TierOk(tiers, i) && TierOk(tiers, j) && TierOk(tiers, i + 1);
    if i > 0 {
      Ordered(tiers, i - 1, i);
    }
    if i + 1 < j {
      Ordered(tiers, i, j - 1);
      assert TierOk(tiers, j - 1);
    }
  }

  /** The tier that holds quantity `n`, looking from tier `i` on. */
  lemma {:induction false} FindTier(tiers: seq<PriceTier>, n: nat, i: nat) returns (k: nat)
    requires TiersOk(tiers) && i < |tiers|
    requires TierOk(tiers, i) && tiers[i].fromValue.value <= n
    ensures k < |tiers| && TierOk(tiers, k) && Covers(tiers[k], n)
    decreases |tiers| - i
  {
    if Covers(tiers[i], n) {
      k := i;
    } else {
      assert TierOk(tiers, i + 1);
      k := FindTier(tiers, n, i + 1);
    }
  }

  lemma ValidPartitions(tiers: seq<PriceTier>)
    requires TiersOk(tiers)
    ensures PartitionsNaturals(tiers)
  {
    forall t | t in tiers
      ensures t.fromValue.Some? && (t.toValue.Some? ==> t.fromValue.value < t.toValue.value)
      ensures t.fromValue.value >= 0
    {
      var i :| 0 <= i < |tiers| && tiers[i] == t;
      assert TierOk(tiers, i);
      if i > 0 {
        Ordered(tiers, 0, i);
      }
    }
    forall i, j | 0 <= i < j < |tiers|
      ensures tiers[i].fromValue.value <= tiers[j].fromValue.value
      ensures forall n: int :: !(Covers(tiers[i], n) && Covers(tiers[j], n))
    {
      Ordered(tiers, i, j);
    }
    forall n: int
      ensures n >= 0 <==> Covered(tiers, n)
    {
      if n >= 0 {
        assert TierOk(tiers, 0);
        var k := FindTier(tiers, n, 0);
      }
    }
  }

  lemma PartitionStartsAtZero(tiers: seq<PriceTier>)
    requires PartitionsNaturals(tiers)
    ensures tiers != [] && tiers[0].fromValue.value == 0
  {
    assert Covered(tiers, 0);
    var i :| 0 <= i < |tiers| && Covers(tiers[i], 0);
    assert tiers[i] in tiers && tiers[0] in tiers;
    assert Covers(tiers[0], tiers[0].fromValue.value);
    assert Covered(tiers, tiers[0].fromValue.value);
  }

  /** No earlier tier reaches the start of tier `i`, so none holds what comes after that start. */
  lemma EarlierTiersEnd(tiers: seq<PriceTier>, i: nat, n: int, j: nat)
    requires PartitionsNaturals(tiers) && j < i < |tiers| && tiers[i].fromValue.value <= n
    ensures !Covers(tiers[j], n)
  {
    assert tiers[i] in tiers && Covers(tiers[i], tiers[i].fromValue.value);
    assert !Covers(tiers[j], tiers[i].fromValue.value);
  }

  lemma PartitionContiguous(tiers: seq<PriceTier>, i: nat)
    requires PartitionsNaturals(tiers) && 0 < i < |tiers|
    ensures tiers[i - 1].toValue == Some(tiers[i].fromValue.value)
  {
    var start := tiers[i].fromValue.value;
    assert tiers[i] in tiers && tiers[i - 1] in tiers;
    EarlierTiersEnd(tiers, i, start, i - 1);
    NextTierFollows(tiers, i - 1);
  }

  lemma PartitionOpenEnded(tiers: seq<PriceTier>)
    requires PartitionsNaturals(tiers) && tiers != []
    ensures tiers[|tiers| - 1].toValue.None?
  {
    if tiers[|tiers| - 1].toValue.Some? {
      NextTierFollows(tiers, |tiers| - 1);
    }
  }

  /** A bounded tier is followed by another that starts no later than it ends. */
  lemma NextTierFollows(tiers: seq<PriceTier>, i: nat)
    requires PartitionsNaturals(tiers) && i < |tiers| && tiers[i].toValue.Some?
    ensures i + 1 < |tiers| && tiers[i + 1].fromValue.value <= tiers[i].toValue.value
  {
    var end := tiers[i].toValue.value;
    assert tiers[i] in tiers && Covers(tiers[i], end - 1);
    forall j | 0 <= j < i
      ensures !Covers(tiers[j], end)
    {
      EarlierTiersEnd(tiers, i, end, j);
    }
    assert Covered(tiers, end - 1) && Covered(tiers, end);
    var j :| 0 <= j < |tiers| && Covers(tiers[j], end);
  }
}
