/** The bid increment table: lookup, fallback, and the seeded rows. */
module Tiers {
  import opened Domain

  const FALLBACK: Kobo := 500 * NAIRA

  /** The rows the seed script inserts. */
  const SEED: seq<Tier> := [
    Tier(0, Some(5_000 * NAIRA), 100 * NAIRA, true),
    Tier(5_001 * NAIRA, Some(20_000 * NAIRA), 500 * NAIRA, true),
    Tier(20_001 * NAIRA, Some(100_000 * NAIRA), 1_000 * NAIRA, true),
    Tier(100_001 * NAIRA, Some(500_000 * NAIRA), 5_000 * NAIRA, true),
    Tier(500_001 * NAIRA, Some(2_000_000 * NAIRA), 10_000 * NAIRA, true),
    Tier(2_000_001 * NAIRA, None, 25_000 * NAIRA, true)
  ]

  predicate Covers(t: Tier, amount: Kobo) {
    t.active && t.min <= amount && (t.max.None? || amount <= t.max.value)
  }

  /** The covering tier with the largest lower bound; the query takes one row, here the first of equals. */
  function FindTier(tiers: seq<Tier>, amount: Kobo): (r: Option<nat>)
    ensures r.None? <==> forall i | 0 <= i < |tiers| :: !Covers(tiers[i], amount)
    ensures r.Some? ==>
              && r.value < |tiers| && Covers(tiers[r.value], amount)
              && forall i | 0 <= i < |tiers| && Covers(tiers[i], amount) :: tiers[i].min <= tiers[r.value].min
  {
    if tiers == [] then None
    else
      var last := |tiers| - 1;
      var best := FindTier(tiers[..last], amount);
      assert forall i | 0 <= i < last :: tiers[..last][i] == tiers[i];
      if Covers(tiers[last], amount) && (best.None? || tiers[best.value].min < tiers[last].min) then Some(last)
      else best
  }

  function IncrementFor(tiers: seq<Tier>, amount: Kobo): Kobo {
    match FindTier(tiers, amount)
    case Some(i) => tiers[i].increment
    case None => FALLBACK
  }

  /**
   The increment is that of an active tier whose range has the amount, and of none of these is the lower bound
   larger; 500 naira if there is no such tier.
   */
  lemma IncrementLaw(tiers: seq<Tier>, amount: Kobo)
    ensures (forall i | 0 <= i < |tiers| && tiers[i].active && tiers[i].min <= amount ::
               tiers[i].max.Some? && tiers[i].max.value < amount) ==>
              IncrementFor(tiers, amount) == 500 * NAIRA
    ensures (exists i | 0 <= i < |tiers| ::
               tiers[i].active && tiers[i].min <= amount && (tiers[i].max.None? || amount <= tiers[i].max.value)) ==>
              exists i | 0 <= i < |tiers| ::
                && tiers[i].active && tiers[i].min <= amount && (tiers[i].max.None? || amount <= tiers[i].max.value)
                && IncrementFor(tiers, amount) == tiers[i].increment
                && forall k | 0 <= k < |tiers| && tiers[k].active && tiers[i].min < tiers[k].min <= amount ::
                     tiers[k].max.Some? && tiers[k].max.value < amount
  {
    var found := FindTier(tiers, amount);
    if found.None? {
      forall i | 0 <= i < |tiers| ensures !Covers(tiers[i], amount) {
      }
    } else {
      forall k | 0 <= k < |tiers| && tiers[k].active && tiers[found.value].min < tiers[k].min <= amount
        ensures tiers[k].max.Some? && tiers[k].max.value < amount
      {
        assert !Covers(tiers[k], amount);
      }
    }
  }

  /** `d` is a lower bound on every increment the table can answer. */
  predicate StepsAtLeast(tiers: seq<Tier>, d: Kobo) {
    d <= FALLBACK && forall i | 0 <= i < |tiers| :: d <= tiers[i].increment
  }

  lemma IncrementBounds(tiers: seq<Tier>, d: Kobo, amount: Kobo)
    requires StepsAtLeast(tiers, d)
    ensures IncrementFor(tiers, amount) >= d
  {
  }

  /** The tier of the seeded table whose range, up to the next lower bound, contains the amount. */
  function SeedBand(amount: Kobo): (i: nat)
    requires amount >= 0
    ensures i < |SEED| && SEED[i].min <= amount
    ensures i + 1 < |SEED| ==> amount < SEED[i + 1].min
  {
    if amount < 5_001 * NAIRA then 0
    else if amount < 20_001 * NAIRA then 1
    else if amount < 100_001 * NAIRA then 2
    else if amount < 500_001 * NAIRA then 3
    else if amount < 2_000_001 * NAIRA then 4
    else 5
  }

  /** An amount strictly between the upper bound of one seeded tier and the lower bound of the next. */
  predicate InGap(amount: Kobo)
    requires amount >= 0
  {
    var t := SEED[SeedBand(amount)];
    t.max.Some? && t.max.value < amount
  }

  lemma SeedCoverage(amount: Kobo, i: nat)
    requires amount >= 0 && i < |SEED|
    ensures Covers(SEED[i], amount) <==> i == SeedBand(amount) && !InGap(amount)
  {
    assert i == 0 || i == 1 || i == 2 || i == 3 || i == 4 || i == 5;
  }

  /** With the seeded table at most one tier covers an amount, and the fallback answers exactly in the gaps. */
  lemma SeedLookup(amount: Kobo)
    requires amount >= 0
    ensures FindTier(SEED, amount) == if InGap(amount) then None else Some(SeedBand(amount))
    ensures IncrementFor(SEED, amount) == if InGap(amount) then FALLBACK else SEED[SeedBand(amount)].increment
    ensures forall i, j | 0 <= i < |SEED| && 0 <= j < |SEED| ::
              Covers(SEED[i], amount) && Covers(SEED[j], amount) ==> i == j
  {
    forall i | 0 <= i < |SEED| ensures Covers(SEED[i], amount) <==> i == SeedBand(amount) && !InGap(amount) {
      SeedCoverage(amount, i);
    }
    if !InGap(amount) {
      assert Covers(SEED[SeedBand(amount)], amount);
    }
  }

  /** There are five gaps, and no whole-naira amount lies in one. */
  lemma SeedGaps(amount: Kobo)
    requires amount >= 0
    ensures InGap(amount) <==>
              || 5_000 * NAIRA < amount < 5_001 * NAIRA
              || 20_000 * NAIRA < amount < 20_001 * NAIRA
              || 100_000 * NAIRA < amount < 100_001 * NAIRA
              || 500_000 * NAIRA < amount < 500_001 * NAIRA
              || 2_000_000 * NAIRA < amount < 2_000_001 * NAIRA
    ensures amount % NAIRA == 0 ==> !InGap(amount)
  {
  }

  /** The increment of every whole-naira amount, in naira. */
  lemma SeedIncrements(n: nat)
    ensures IncrementFor(SEED, n * NAIRA) == NAIRA *
              if n <= 5_000 then 100
              else if n <= 20_000 then 500
              else if n <= 100_000 then 1_000
              else if n <= 500_000 then 5_000
              else if n <= 2_000_000 then 10_000
              else 25_000
  {
    SeedLookup(n * NAIRA);
    SeedGaps(n * NAIRA);
  }

  /** On whole naira a higher bid never lowers the increment, so the next minimum strictly rises. */
  lemma SeedMonotone(a: Kobo, b: Kobo)
    requires 0 <= a < b && a % NAIRA == 0 && b % NAIRA == 0
    ensures IncrementFor(SEED, a) <= IncrementFor(SEED, b)
    ensures a + IncrementFor(SEED, a) < b + IncrementFor(SEED, b)
  {
    SeedLookup(a);
    SeedLookup(b);
    SeedGaps(a);
    SeedGaps(b);
  }

  /** Off whole naira the order can break: exactly when the fallback answers after a tier above 500 naira. */
  lemma IncrementOrder(a: Kobo, b: Kobo)
    requires 0 <= a <= b
    ensures IncrementFor(SEED, a) <= IncrementFor(SEED, b) <==> !(InGap(b) && !InGap(a) && SeedBand(a) >= 2)
  {
    SeedLookup(a);
    SeedLookup(b);
  }

  /** The least next bid itself falls when moreover the two amounts are closer than the increments. */
  lemma NextBidOrder(a: Kobo, b: Kobo)
    requires 0 <= a <= b
    ensures a + IncrementFor(SEED, a) <= b + IncrementFor(SEED, b) <==>
            !(InGap(b) && !InGap(a) && SeedBand(a) >= 2 && b - a < SEED[SeedBand(a)].increment - FALLBACK)
  {
    SeedLookup(a);
    SeedLookup(b);
  }

  /** One kobo more than 100,000 naira, and the least next bid falls from 101,000 to 100,500.01. */
  lemma OneKoboLess()
    ensures var a, b := 100_000 * NAIRA, 100_000 * NAIRA + 1;
            && IncrementFor(SEED, a) == 1_000 * NAIRA && IncrementFor(SEED, b) == 500 * NAIRA
            && b + IncrementFor(SEED, b) < a + IncrementFor(SEED, a)
  {
    SeedLookup(100_000 * NAIRA);
    SeedLookup(100_000 * NAIRA + 1);
  }

  lemma SeedSteps()
    ensures StepsAtLeast(SEED, 100 * NAIRA)
  {
    forall i | 0 <= i < |SEED| ensures 100 * NAIRA <= SEED[i].increment {
      assert i == 0 || i == 1 || i == 2 || i == 3 || i == 4 || i == 5;
    }
  }

  /** The seed script's loop: one row per entry of the table, in order. */
  method Seed(existing: seq<Tier>) returns (tiers: seq<Tier>)
    ensures tiers == existing + SEED
  {
    tiers := existing;
    for i := 0 to |SEED|
      invariant tiers == existing + SEED[..i]
    {
      tiers := tiers + [SEED[i]];
      assert SEED[..i + 1] == SEED[..i] + [SEED[i]];
    }
    assert SEED[..|SEED|] == SEED;
  }
}
