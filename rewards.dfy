/** The rewards page: an Eco Dharma points balance spent on coupons and donations. */
module Rewards {
  import opened Seqs

  datatype RewardKind = Coupon | Donation

  /** `RewardItem`, without the display-only image, partner and hint fields. */
  datatype Reward = Reward(id: string, kind: RewardKind, title: string, pointsRequired: int)

  /** `availableRewards`, in page order. */
  const AvailableRewards: seq<Reward> := [
    Reward("c1", Coupon, "10% Off at GreenMart", 500),
    Reward("c2", Coupon, "$5 Voucher for EcoThreads", 750),
    Reward("d1", Donation, "Plant a Tree with TreesForAll", 300),
    Reward("d2", Donation, "Support CleanWater Project", 1000),
    Reward("c3", Coupon, "Free Coffee at The Organic Bean", 200)
  ]

  /** The mock balance the page starts with. */
  const InitialPoints: int := 1250

  /** The notification `handleRedeem` shows. */
  datatype RedeemOutcome = Redeemed | NotEnoughPoints(shortfall: int)

  /** The redeem and donate buttons are disabled exactly when the balance is short. */
  predicate ButtonDisabled(balance: int, reward: Reward)
  {
    balance < reward.pointsRequired
  }

  /** One redemption against a balance: the outcome and the balance afterwards. A redemption
      succeeds exactly when the button is enabled; success takes exactly the reward's price,
      failure keeps the balance and reports a positive shortfall. */
  function Redeem(balance: int, reward: Reward): (r: (RedeemOutcome, int))
    ensures r.0.Redeemed? <==> !ButtonDisabled(balance, reward)
    ensures r.0.Redeemed? ==> r.1 + reward.pointsRequired == balance && r.1 >= 0
    ensures r.0.NotEnoughPoints? ==> r.1 == balance && r.0.shortfall > 0 &&
                                     balance + r.0.shortfall == reward.pointsRequired
  {
    if balance >= reward.pointsRequired then (Redeemed, balance - reward.pointsRequired)
    else (NotEnoughPoints(reward.pointsRequired - balance), balance)
  }

  /** The balance after a run of redemption clicks, one per reward, in order. */
  function RedeemAll(balance: int, rewards: seq<Reward>): int
    decreases rewards
  {
    if rewards == [] then balance else RedeemAll(Redeem(balance, rewards[0]).1, rewards[1..])
  }

  /** However many rewards are redeemed, a non-negative balance stays non-negative, and with
      non-negative prices it never grows. */
  lemma {:induction false} RedeemAllKeepsBalance(balance: int, rewards: seq<Reward>)
    requires balance >= 0
    ensures RedeemAll(balance, rewards) >= 0
    ensures (forall k :: 0 <= k < |rewards| ==> rewards[k].pointsRequired >= 0) ==>
              RedeemAll(balance, rewards) <= balance
    decreases rewards
  {
    if rewards != [] {
      RedeemAllKeepsBalance(Redeem(balance, rewards[0]).1, rewards[1..]);
    }
  }

  /** The coupons tab: the coupon rewards, in catalog order. */
  function CouponTab(rewards: seq<Reward>): seq<Reward>
  {
    Filter(rewards, (r: Reward) => r.kind == Coupon)
  }

  /** The donations tab: the donation rewards, in catalog order. */
  function DonationTab(rewards: seq<Reward>): seq<Reward>
  {
    Filter(rewards, (r: Reward) => r.kind == Donation)
  }

  /** The two tabs split the catalog: every reward is listed on exactly one of them, on the
      tab of its kind. */
  lemma TabsPartitionCatalog(rewards: seq<Reward>, reward: Reward)
    ensures multiset(CouponTab(rewards)) + multiset(DonationTab(rewards)) == multiset(rewards)
    ensures |CouponTab(rewards)| + |DonationTab(rewards)| == |rewards|
    ensures reward in CouponTab(rewards) <==> reward in rewards && reward.kind == Coupon
    ensures reward in DonationTab(rewards) <==> reward in rewards && reward.kind == Donation
  {
    FilterPartition(rewards, (r: Reward) => r.kind == Coupon, (r: Reward) => r.kind == Donation);
    FilterMembership(rewards, (r: Reward) => r.kind == Coupon, reward);
    FilterMembership(rewards, (r: Reward) => r.kind == Donation, reward);
  }

  /** With the starting balance every reward can be redeemed once; after the CleanWater
      donation (1000) the GreenMart coupon (500) is 250 points short. */
  lemma StartingBalanceScenario()
    ensures forall k :: 0 <= k < |AvailableRewards| ==> !ButtonDisabled(InitialPoints, AvailableRewards[k])
    ensures Redeem(InitialPoints, AvailableRewards[3]) == (Redeemed, 250)
    ensures Redeem(250, AvailableRewards[0]) == (NotEnoughPoints(250), 250)
    ensures CouponTab(AvailableRewards) == [AvailableRewards[0], AvailableRewards[1], AvailableRewards[4]]
  {
  }

  /** The page's balance. */
  class RewardsPage {
    var ecoDharmaPoints: int

    ghost predicate Valid()
      reads this
    {
      ecoDharmaPoints >= 0
    }

    constructor ()
      ensures Valid() && ecoDharmaPoints == InitialPoints
    {
      ecoDharmaPoints := InitialPoints;
    }

    /** `handleRedeem`. */
    method HandleRedeem(reward: Reward) returns (outcome: RedeemOutcome)
      requires Valid()
      modifies this
      ensures Valid()
      ensures (outcome, ecoDharmaPoints) == Redeem(old(ecoDharmaPoints), reward)
    {
      if ecoDharmaPoints >= reward.pointsRequired {
        ecoDharmaPoints := ecoDharmaPoints - reward.pointsRequired;
        outcome := Redeemed;
      } else {
        outcome := NotEnoughPoints(reward.pointsRequired - ecoDharmaPoints);
      }
    }
  }
}
