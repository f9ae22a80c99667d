/** The transaction limits of the KYC tiers. */
module Limits {
  import opened Domain

  datatype TierLimits = TierLimits(maxBid: Kobo, maxBalance: Kobo, maxDailyWithdrawal: Kobo)

  function LimitsFor(tier: KycTier): TierLimits {
    match tier
    case Tier2 => TierLimits(500_000 * NAIRA, 2_000_000 * NAIRA, 500_000 * NAIRA)
    case Tier3 => TierLimits(999_999_999 * NAIRA, 999_999_999 * NAIRA, 5_000_000 * NAIRA)
    case Tier1 => TierLimits(50_000 * NAIRA, 100_000 * NAIRA, 0)
  }

  /** No tier allows a bid above this. */
  const MAX_BID: Kobo := 999_999_999 * NAIRA
}
