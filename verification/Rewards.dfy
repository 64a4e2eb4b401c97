/** The emission schedule: a table of fourteen eras followed by the capped Scarcity tail. */
module Rewards {
  import opened Ints
  import opened Wrappers

  const TOTAL_PROTOCOL_EMISSIONS: u64 := 20_000_000_000_000_000
  const SCARCITY_START_BLOCK: u64 := 16_000_000
  const SCARCITY_BASE_REWARD: u64 := CentiBloc(15)
  const SCARCITY_FULL_REWARD_BLOCKS: u64 := 6_466_666
  const SCARCITY_FINAL_PARTIAL_REWARD: u64 := DeciBloc(1)
  /** The number of blocks with a positive reward. */
  const REWARDED_BLOCKS: u64 := SCARCITY_START_BLOCK + SCARCITY_FULL_REWARD_BLOCKS + 1

  datatype RewardEra = RewardEra(index: u8, reward: u64)

  datatype EraSpec = EraSpec(startBlock: u64, endBlockExclusive: Option<u64>, reward: u64)

  function Bloc(amount: u64): u64
    requires amount <= 1_000
  {
    amount * 1_000_000_000
  }

  function DeciBloc(tenths: u64): u64
    requires tenths <= 1_000
  {
    tenths * 100_000_000
  }

  function CentiBloc(hundredths: u64): u64
    requires hundredths <= 1_000
  {
    hundredths * 10_000_000
  }

  /** The era table, REWARD_ERAS. */
  function EraAt(i: nat): EraSpec
    requires i < 14
  {
    match i
    case 0 => EraSpec(0, Some(10_000), Bloc(21))
    case 1 => EraSpec(10_000, Some(100_000), Bloc(12))
    case 2 => EraSpec(100_000, Some(300_000), Bloc(7))
    case 3 => EraSpec(300_000, Some(600_000), Bloc(5))
    case 4 => EraSpec(600_000, Some(1_000_000), DeciBloc(38))
    case 5 => EraSpec(1_000_000, Some(1_500_000), Bloc(3))
    case 6 => EraSpec(1_500_000, Some(2_100_000), DeciBloc(23))
    case 7 => EraSpec(2_100_000, Some(3_000_000), DeciBloc(18))
    case 8 => EraSpec(3_000_000, Some(4_200_000), DeciBloc(14))
    case 9 => EraSpec(4_200_000, Some(5_800_000), DeciBloc(11))
    case 10 => EraSpec(5_800_000, Some(7_500_000), DeciBloc(9))
    case 11 => EraSpec(7_500_000, Some(9_500_000), DeciBloc(7))
    case 12 => EraSpec(9_500_000, Some(12_000_000), DeciBloc(5))
    case _ => EraSpec(12_000_000, Some(16_000_000), DeciBloc(3))
  }

  predicate InRange(era: EraSpec, block: u64) {
    match era.endBlockExclusive
    case Some(end) => era.startBlock <= block < end
    case None => era.startBlock <= block
  }

  /** The early-return scan of the table, from entry `i` on; None is the fall-through after it. */
  function ScanEras(block: u64, i: nat): Option<RewardEra>
    requires i <= 14
    decreases 14 - i
  {
    if i == 14 then None
    else if InRange(EraAt(i), block) then Some(RewardEra(i, EraAt(i).reward))
    else ScanEras(block, i + 1)
  }

  function RewardEraForBlock(block: u64): RewardEra {
    if block >= SCARCITY_START_BLOCK then
      var offset := block - SCARCITY_START_BLOCK;
      RewardEra(14,
                if offset < SCARCITY_FULL_REWARD_BLOCKS then SCARCITY_BASE_REWARD
                else if offset == SCARCITY_FULL_REWARD_BLOCKS then SCARCITY_FINAL_PARTIAL_REWARD
                else 0)
    else
      match ScanEras(block, 0)
      case Some(era) => era
      case None => RewardEra(13, EraAt(13).reward)
  }

  function RewardForBlock(block: u64): u64 {
    RewardEraForBlock(block).reward
  }

  /** The first block of era `e`; era 14 is Scarcity. */
  function EraStart(e: nat): u64
    requires e <= 14
  {
    if e == 14 then SCARCITY_START_BLOCK else EraAt(e).startBlock
  }

  function EraReward(e: nat): u64
    requires e < 14
  {
    EraAt(e).reward
  }

  /** The table tiles [0, SCARCITY_START_BLOCK) without gap or overlap. */
  lemma EraTable(e: nat)
    requires e < 14
    ensures EraStart(0) == 0
    ensures EraAt(e).endBlockExclusive == Some(EraStart(e + 1))
    ensures EraStart(e) < EraStart(e + 1) <= SCARCITY_START_BLOCK
    ensures SCARCITY_BASE_REWARD < EraReward(e) && EraReward(e) % 100 == 0
    ensures e < 13 ==> EraReward(e + 1) < EraReward(e)
  {}

  /** The scan stops at the era that contains the block, and nowhere earlier. */
  lemma {:induction false} ScanFinds(block: u64, i: nat, e: nat)
    requires i <= e < 14 && EraStart(e) <= block < EraStart(e + 1)
    ensures ScanEras(block, i) == Some(RewardEra(e, EraReward(e)))
    decreases e - i
  {
    EraTable(i);
    if i < e {
      EraStartsAscend(i + 1, e);
      ScanFinds(block, i + 1, e);
    }
  }

  lemma {:induction false} EraStartsAscend(d: nat, e: nat)
    requires d <= e <= 14
    ensures EraStart(d) <= EraStart(e)
    decreases e - d
  {
    if d < e {
      EraTable(d);
      EraStartsAscend(d + 1, e);
    }
  }

  /** Every block before Scarcity lies in exactly one era of the table. */
  lemma {:induction false} EraOf(block: u64, e: nat) returns (found: nat)
    requires e <= 14 && block < EraStart(e)
    ensures found < e && EraStart(found) <= block < EraStart(found + 1)
  {
    EraTable(0);
    if EraStart(e - 1) <= block { found := e - 1; } else { found := EraOf(block, e - 1); }
  }

  /** Inside an era the reward is the table's; so the fall-through after the scan is never reached. */
  lemma RewardInEra(block: u64, e: nat)
    requires e < 14 && EraStart(e) <= block < EraStart(e + 1)
    ensures RewardEraForBlock(block) == RewardEra(e, EraReward(e))
  {
    EraTable(e);
    ScanFinds(block, 0, e);
  }

  lemma FallThroughUnreachable(block: u64)
    ensures ScanEras(block, 0).None? <==> block >= SCARCITY_START_BLOCK
  {
    if block < SCARCITY_START_BLOCK {
      var e := EraOf(block, 14);
      ScanFinds(block, 0, e);
    } else {
      ScanMisses(block, 0);
    }
  }

  lemma {:induction false} ScanMisses(block: u64, i: nat)
    requires i <= 14 && block >= SCARCITY_START_BLOCK
    ensures ScanEras(block, i) == None
    decreases 14 - i
  {
    if i < 14 {
      EraTable(i);
      ScanMisses(block, i + 1);
    }
  }

  /** The era table in plain numbers: era, blocks and reward in units of a billionth. */
  lemma ScheduleOfTable(block: u64)
    ensures block < 10_000 ==> RewardEraForBlock(block) == RewardEra(0, 21_000_000_000)
    ensures 10_000 <= block < 100_000 ==> RewardEraForBlock(block) == RewardEra(1, 12_000_000_000)
    ensures 100_000 <= block < 300_000 ==> RewardEraForBlock(block) == RewardEra(2, 7_000_000_000)
    ensures 300_000 <= block < 600_000 ==> RewardEraForBlock(block) == RewardEra(3, 5_000_000_000)
    ensures 600_000 <= block < 1_000_000 ==> RewardEraForBlock(block) == RewardEra(4, 3_800_000_000)
    ensures 1_000_000 <= block < 1_500_000 ==> RewardEraForBlock(block) == RewardEra(5, 3_000_000_000)
    ensures 1_500_000 <= block < 2_100_000 ==> RewardEraForBlock(block) == RewardEra(6, 2_300_000_000)
    ensures 2_100_000 <= block < 3_000_000 ==> RewardEraForBlock(block) == RewardEra(7, 1_800_000_000)
    ensures 3_000_000 <= block < 4_200_000 ==> RewardEraForBlock(block) == RewardEra(8, 1_400_000_000)
    ensures 4_200_000 <= block < 5_800_000 ==> RewardEraForBlock(block) == RewardEra(9, 1_100_000_000)
    ensures 5_800_000 <= block < 7_500_000 ==> RewardEraForBlock(block) == RewardEra(10, 900_000_000)
    ensures 7_500_000 <= block < 9_500_000 ==> RewardEraForBlock(block) == RewardEra(11, 700_000_000)
    ensures 9_500_000 <= block < 12_000_000 ==> RewardEraForBlock(block) == RewardEra(12, 500_000_000)
    ensures 12_000_000 <= block < 16_000_000 ==> RewardEraForBlock(block) == RewardEra(13, 300_000_000)
  {
    hide RewardEraForBlock;
    if block < 10_000 {
      RewardInEra(block, 0);
    } else if block < 100_000 {
      RewardInEra(block, 1);
    } else if block < 300_000 {
      RewardInEra(block, 2);
    } else if block < 600_000 {
      RewardInEra(block, 3);
    } else if block < 1_000_000 {
      RewardInEra(block, 4);
    } else if block < 1_500_000 {
      RewardInEra(block, 5);
    } else if block < 2_100_000 {
      RewardInEra(block, 6);
    } else if block < 3_000_000 {
      RewardInEra(block, 7);
    } else if block < 4_200_000 {
      RewardInEra(block, 8);
    } else if block < 5_800_000 {
      RewardInEra(block, 9);
    } else if block < 7_500_000 {
      RewardInEra(block, 10);
    } else if block < 9_500_000 {
      RewardInEra(block, 11);
    } else if block < 12_000_000 {
      RewardInEra(block, 12);
    } else if block < 16_000_000 {
      RewardInEra(block, 13);
    }
  }

  /** The Scarcity tail in plain numbers. */
  lemma ScheduleOfScarcity(block: u64)
    ensures 16_000_000 <= block < 22_466_666 ==> RewardEraForBlock(block) == RewardEra(14, 150_000_000)
    ensures block == 22_466_666 ==> RewardEraForBlock(block) == RewardEra(14, 100_000_000)
    ensures block > 22_466_666 ==> RewardEraForBlock(block) == RewardEra(14, 0)
  {}

  /** Rewards never rise, and they are positive exactly before block 22,466,667. */
  lemma RewardsNonIncreasing(a: u64, b: u64)
    requires a <= b
    ensures RewardForBlock(b) <= RewardForBlock(a)
    ensures RewardForBlock(a) > 0 <==> a < REWARDED_BLOCKS
  {
    if a < SCARCITY_START_BLOCK {
      var d := EraOf(a, 14);
      RewardInEra(a, d);
      EraTable(d);
      if b < SCARCITY_START_BLOCK {
        var e := EraOf(b, 14);
        RewardInEra(b, e);
        if e < d { EraStartsAscend(e + 1, d); }
        EraRewardsDescend(d, e);
      }
    }
  }

  lemma {:induction false} EraRewardsDescend(d: nat, e: nat)
    requires d <= e < 14
    ensures EraReward(e) <= EraReward(d)
    decreases e - d
  {
    if d < e {
      EraTable(d);
      EraRewardsDescend(d + 1, e);
    }
  }

  /** The sum of the rewards of the blocks 0 .. n-1. */
  function Emitted(n: nat): nat
    requires n <= TWO_64
  {
    if n == 0 then 0 else Emitted(n - 1) + RewardForBlock(n - 1)
  }

  /** Over blocks of one reward the prefix sum is linear. */
  lemma {:induction false} EmittedLinear(a: nat, n: nat, reward: nat)
    requires a <= n <= TWO_64
    requires forall k: u64 :: a <= k < n ==> RewardForBlock(k) == reward
    ensures Emitted(n) == Emitted(a) + (n - a) * reward
    decreases n - a
  {
    hide RewardForBlock;
    if a < n {
      EmittedLinear(a, n - 1, reward);
      OneMore(n - 1 - a, reward);
    }
  }

  lemma OneMore(k: nat, reward: nat)
    ensures (k + 1) * reward == k * reward + reward
  {}

  lemma EmittedInEra(e: nat, n: nat)
    requires e < 14 && EraStart(e) <= n <= EraStart(e + 1)
    ensures Emitted(n) == Emitted(EraStart(e)) + (n - EraStart(e)) * EraReward(e)
  {
    EraTable(e);
    forall k: u64 | EraStart(e) <= k < n ensures RewardForBlock(k) == EraReward(e) {
      RewardInEra(k, e);
    }
    EmittedLinear(EraStart(e), n, EraReward(e));
  }

  lemma EmittedInScarcity(n: nat)
    requires SCARCITY_START_BLOCK <= n < REWARDED_BLOCKS
    ensures Emitted(n) == Emitted(SCARCITY_START_BLOCK) + (n - SCARCITY_START_BLOCK) * SCARCITY_BASE_REWARD
  {
    EmittedLinear(SCARCITY_START_BLOCK, n, SCARCITY_BASE_REWARD);
  }

  lemma EmittedAfterLastReward(n: nat)
    requires REWARDED_BLOCKS <= n <= TWO_64
    ensures Emitted(n) == Emitted(REWARDED_BLOCKS)
  {
    EmittedLinear(REWARDED_BLOCKS, n, 0);
  }

  /** The cumulative column of the published schedule, in lamports. */
  function EraCumulative(e: nat): int
    requires e <= 14
  {
    if e == 0 then 0 else EraCumulative(e - 1) + EraTotal(e - 1)
  }

  /** What era `e` of the table pays in all. */
  function EraTotal(e: nat): int
    requires e < 14
  {
    (EraStart(e + 1) - EraStart(e)) * EraReward(e)
  }

  lemma {:induction false} EmittedAtEraStart(e: nat)
    requires e <= 14
    ensures Emitted(EraStart(e)) == EraCumulative(e)
  {
    if e == 0 {
      EraTable(0);
    } else {
      EmittedAtEraStart(e - 1);
      EmittedOverEra(e - 1);
    }
  }

  lemma EmittedOverEra(e: nat)
    requires e < 14
    ensures Emitted(EraStart(e + 1)) == Emitted(EraStart(e)) + EraTotal(e)
  {
    EraTable(e);
    EmittedInEra(e, EraStart(e + 1));
  }

  lemma EraCumulativeValues()
    ensures EraCumulative(14) == 19_030_000 * 1_000_000_000
  {
    assert EraCumulative(1) == 210_000 * 1_000_000_000;
    assert EraCumulative(2) == 1_290_000 * 1_000_000_000;
    assert EraCumulative(3) == 2_690_000 * 1_000_000_000;
    assert EraCumulative(4) == 4_190_000 * 1_000_000_000;
    assert EraCumulative(5) == 5_710_000 * 1_000_000_000;
    assert EraCumulative(6) == 7_210_000 * 1_000_000_000;
    assert EraCumulative(7) == 8_590_000 * 1_000_000_000;
    assert EraCumulative(8) == 10_210_000 * 1_000_000_000;
    assert EraCumulative(9) == 11_890_000 * 1_000_000_000;
    assert EraCumulative(10) == 13_650_000 * 1_000_000_000;
    assert EraCumulative(11) == 15_180_000 * 1_000_000_000;
    assert EraCumulative(12) == 16_580_000 * 1_000_000_000;
    assert EraCumulative(13) == 17_830_000 * 1_000_000_000;
  }

  lemma {:induction false} EmittedMonotone(m: nat, n: nat)
    requires m <= n <= TWO_64
    ensures Emitted(m) <= Emitted(n)
    decreases n - m
  {
    if m < n { EmittedMonotone(m, n - 1); }
  }

  /** The whole schedule sums to the fixed emissions. */
  lemma FullEmissions()
    ensures Emitted(REWARDED_BLOCKS) == TOTAL_PROTOCOL_EMISSIONS
  {
    hide EraCumulative, EraAt;
    EmittedAtEraStart(14);
    EraCumulativeValues();
    EmittedInScarcity(REWARDED_BLOCKS - 1);
  }

  /** The emissions reach the fixed total exactly at the last rewarded block, and never pass it. */
  lemma TotalEmissions(n: nat)
    requires n <= TWO_64
    ensures Emitted(n) <= TOTAL_PROTOCOL_EMISSIONS
    ensures Emitted(n) == TOTAL_PROTOCOL_EMISSIONS <==> n >= REWARDED_BLOCKS
  {
    FullEmissions();
    if n >= REWARDED_BLOCKS {
      EmittedAfterLastReward(n);
    } else {
      EmittedMonotone(n + 1, REWARDED_BLOCKS);
      RewardsNonIncreasing(n, n);
    }
  }

  /** A block's reward always fits in what the schedule has not paid yet. */
  lemma RewardWithinRemainder(n: u64)
    ensures Emitted(n) + RewardForBlock(n) <= TOTAL_PROTOCOL_EMISSIONS
    ensures Emitted(n + 1) == Emitted(n) + RewardForBlock(n)
  {
    TotalEmissions(n + 1);
  }

  /** Every reward splits 1% / 99% without rounding dust. */
  lemma RewardSplitsExactly(n: u64)
    ensures RewardForBlock(n) % 100 == 0
  {
    if n < SCARCITY_START_BLOCK {
      var e := EraOf(n, 14);
      RewardInEra(n, e);
      EraTable(e);
    }
  }
}
