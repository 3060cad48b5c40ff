/**
 * The membership tiers and their tables: ids, monthly suggestion limits,
 * monthly prices in won, and the benefit lines shown on the upgrade page.
 * The tables are keyed by tier id string, so each lookup takes the id.
 */
module Constants {
  import opened Entities

  datatype UserTier = Free | Premium | Pro | Admin

  /** `USER_TIERS`. */
  function TierId(t: UserTier): string {
    match t
    case Free => "free"
    case Premium => "premium"
    case Pro => "pro"
    case Admin => "admin"
  }

  /** The tier an id names, if any. */
  function TierFromId(id: string): (r: Option<UserTier>)
    ensures r.Some? ==> TierId(r.value) == id
  {
    if id == "free" then Some(Free)
    else if id == "premium" then Some(Premium)
    else if id == "pro" then Some(Pro)
    else if id == "admin" then Some(Admin)
    else None
  }

  /** The four ids are pairwise distinct, so every id names its tier back. */
  lemma TierIdsDistinct(t: UserTier, u: UserTier)
    ensures TierId(t) == TierId(u) ==> t == u
    ensures TierFromId(TierId(t)) == Some(t)
  {
  }

  /** `MONTHLY_SUBMISSION_LIMITS[id]`. */
  function MonthlySubmissionLimit(id: string): (r: Option<nat>)
    ensures r.Some? <==> TierFromId(id).Some?
  {
    match TierFromId(id)
    case None => None
    case Some(t) =>
      Some(match t
           case Free => 2
           case Premium => 10
           case Pro => 999
           case Admin => 999)
  }

  /** `TIER_PRICES[id]`: only the paid tiers have a price. */
  function TierPrice(id: string): Option<nat> {
    if id == TierId(Premium) then Some(4900)
    else if id == TierId(Pro) then Some(9900)
    else None
  }

  /** `TIER_BENEFITS[id]`: the administrator tier has no entry. */
  function TierBenefits(id: string): Option<seq<string>> {
    if id == TierId(Free) then
      Some(["월 2회 항목 제안 가능", "모든 티어 투표 참여 가능", "기본 기능 이용 가능"])
    else if id == TierId(Premium) then
      Some(["월 10회 항목 제안 가능", "모든 티어 투표 참여 가능", "프리미엄 배지 표시", "광고 없는 경험"])
    else if id == TierId(Pro) then
      Some(["무제한 항목 제안 가능", "모든 티어 투표 참여 가능", "Pro 배지 표시", "광고 없는 경험",
            "우선 항목 검토", "커스텀 프로필"])
    else None
  }

  /** The limits by tier, and their order: free <= premium <= pro = admin. */
  lemma LimitsOrdered()
    ensures MonthlySubmissionLimit(TierId(Free)) == Some(2)
    ensures MonthlySubmissionLimit(TierId(Premium)) == Some(10)
    ensures MonthlySubmissionLimit(TierId(Pro)) == Some(999)
    ensures MonthlySubmissionLimit(TierId(Admin)) == Some(999)
    ensures forall t, u :: Rank(t) <= Rank(u) ==>
              MonthlySubmissionLimit(TierId(t)).value <= MonthlySubmissionLimit(TierId(u)).value
  {
  }

  /** Free 0, premium 1, pro and admin 2. */
  function Rank(t: UserTier): nat {
    match t
    case Free => 0
    case Premium => 1
    case Pro => 2
    case Admin => 2
  }

  /** Prices exist exactly for premium and pro, and premium is cheaper. */
  lemma PricesOfPaidTiers(id: string)
    ensures TierPrice(id).Some? <==> id == TierId(Premium) || id == TierId(Pro)
    ensures TierPrice(TierId(Premium)).value < TierPrice(TierId(Pro)).value
  {
  }

  /** Benefit lists exist for free (3 lines), premium (4) and pro (6), and not for admin. */
  lemma BenefitCounts(id: string)
    ensures TierBenefits(id).Some? <==> id in {TierId(Free), TierId(Premium), TierId(Pro)}
    ensures |TierBenefits(TierId(Free)).value| == 3
    ensures |TierBenefits(TierId(Premium)).value| == 4
    ensures |TierBenefits(TierId(Pro)).value| == 6
    ensures TierBenefits(TierId(Admin)).None?
  {
  }
}
