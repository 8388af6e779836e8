// Mining parameters (plugin/dapp/pos33/types/ticket.go:157-209) and the values the
// chain ships with (ycc.go:113-120, 308; ycc.toml:2).
module Params {

  const SORT_BLOCKS := 10
  const VOTER_SIZE := 25
  const COMMITTEE_SIZE := 75
  const MUST_VOTES := 17

  const COIN := 1_0000_0000

  // nonFinite is what the machine answers when it converts to int64 the NaN or infinity
  // that a division by no tickets yields, for a pool and a consignor's tickets. Go leaves
  // that conversion to the implementation.
  datatype MineParam = MineParam(ticketPrice: int, feePercent: int, rewardTransfer: int,
                                 blockReward: int, voteReward: int, mineReward: int, nonFinite: (int, int) -> int)
  {
    // What a configuration has to satisfy for a block to be payable at all.
    predicate Valid() {
      ticketPrice > 0 && 0 <= feePercent < 100 && rewardTransfer > 0 && voteReward >= 0 && mineReward >= 0
    }

    // Pool of the maker and of the voters for n voter keys.
    function Pools(n: int): int {
      (voteReward + mineReward) * n
    }
  }

  // UseEntrust is active from height 0, so the second ticket price applies. A non-finite
  // conversion gives what amd64 gives.
  const SHIPPED := MineParam(100000 * COIN, 10, 1 * COIN, 15 * COIN, 25 * COIN / 100, 11 * COIN / 100,
                             (pool, tickets) => -0x8000_0000_0000_0000)

  // With 13 to 25 voter keys, the issue of one block covers both pools and leaves a
  // positive remainder for the fund.
  lemma ShippedIssueCoversPools(n: int)
    requires VOTER_SIZE / 2 + 1 <= n <= VOTER_SIZE
    ensures SHIPPED.Valid()
    ensures SHIPPED.blockReward - SHIPPED.Pools(n) >= 6 * COIN
  {
    assert SHIPPED.voteReward + SHIPPED.mineReward == 3600_0000;
    assert SHIPPED.Pools(n) == 3600_0000 * n;
  }
}
