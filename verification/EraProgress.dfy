/** The desktop miner's own closed form of the emission schedule, era by era, with the saturating
    u64 arithmetic of the source. */
module EraProgress {
  import opened Ints
  import opened Rewards

  function SatSub64(x: u64, y: u64): u64 { Max(x - y, 0) }

  /** The first n blocks cut to era `e`: the blocks the era has settled lie in [EraStart(e), ClampToEra(e, n)). */
  function ClampToEra(e: nat, n: u64): u64
    requires e <= 14
  {
    Max(EraStart(e), if e == 14 then n else Min(n, EraStart(e + 1)))
  }

  /** The block-by-block sum of the rewards of era `e` among the first n blocks. */
  function EraEmitted(e: nat, n: u64): nat
    requires e <= 14
  {
    EmittedMonotone(EraStart(e), ClampToEra(e, n));
    Emitted(ClampToEra(e, n)) - Emitted(EraStart(e))
  }

  function EraLinearProgress(completed: u64, start: u64, endExclusive: u64, reward: u64): u64 {
    if completed <= start then 0
    else SatMul64(Min(SatSub64(completed, start), SatSub64(endExclusive, start)), reward)
  }

  /** For an era of the table no saturation decides: the closed form is the era's sum. */
  lemma LinearProgressIsEraSum(e: nat, n: u64)
    requires e < 14
    ensures EraLinearProgress(n, EraStart(e), EraStart(e + 1), EraReward(e)) == EraEmitted(e, n)
  {
    hide RewardForBlock;
    EraTable(e);
    EmittedInEra(e, ClampToEra(e, n));
    TotalEmissions(ClampToEra(e, n));
  }

  /** What the Scarcity tail has paid; the source's final cap of 970,000 BLOC is exactly the full tail. */
  lemma ScarcityPrefix(n: u64)
    requires n >= SCARCITY_START_BLOCK
    ensures EraEmitted(14, n)
         == if n < REWARDED_BLOCKS then (n - SCARCITY_START_BLOCK) * 150_000_000 else 970_000_000_000_000
  {
    hide RewardForBlock;
    assert ClampToEra(14, n) == n;
    if n < REWARDED_BLOCKS {
      EmittedInScarcity(n);
    } else {
      TotalEmissions(n);
      EmittedAtEraStart(14);
      EraCumulativeValues();
    }
  }

  /** The closed form of the Scarcity tail: full blocks, the final partial one, and the cap. */
  function ScarcityMined(completed: u64): (lamports: u64)
    ensures lamports == EraEmitted(14, completed)
  {
    if completed <= 16_000_000 then 0
    else
      var inEra := SatSub64(completed, 16_000_000);
      var full := SatMul64(Min(inEra, 6_466_666), 150_000_000);
      ScarcityPrefix(completed);
      Min(if inEra > 6_466_666 then SatAdd64(full, 100_000_000) else full, 970_000_000_000_000)
  }

  method ScarcityProgress(completed: u64) returns (lamports: u64)
    ensures lamports == ScarcityMined(completed) == EraEmitted(14, completed)
  {
    if completed <= 16_000_000 {
      return 0;
    }
    var completedInEra := SatSub64(completed, 16_000_000);
    var fullBlocks := Min(completedInEra, 6_466_666);
    var mined := SatMul64(fullBlocks, 150_000_000);
    if completedInEra > 6_466_666 {
      mined := SatAdd64(mined, 100_000_000);
    }
    lamports := Min(mined, 970_000_000_000_000);
  }

  /** The re-implemented schedule: its own table of eras, and nothing for an era it does not know. */
  function EraMinedLamports(era: u8, blocksMined: u64): u64 {
    match era
    case 0 => EraLinearProgress(blocksMined, 0, 10_000, 21_000_000_000)
    case 1 => EraLinearProgress(blocksMined, 10_000, 100_000, 12_000_000_000)
    case 2 => EraLinearProgress(blocksMined, 100_000, 300_000, 7_000_000_000)
    case 3 => EraLinearProgress(blocksMined, 300_000, 600_000, 5_000_000_000)
    case 4 => EraLinearProgress(blocksMined, 600_000, 1_000_000, 3_800_000_000)
    case 5 => EraLinearProgress(blocksMined, 1_000_000, 1_500_000, 3_000_000_000)
    case 6 => EraLinearProgress(blocksMined, 1_500_000, 2_100_000, 2_300_000_000)
    case 7 => EraLinearProgress(blocksMined, 2_100_000, 3_000_000, 1_800_000_000)
    case 8 => EraLinearProgress(blocksMined, 3_000_000, 4_200_000, 1_400_000_000)
    case 9 => EraLinearProgress(blocksMined, 4_200_000, 5_800_000, 1_100_000_000)
    case 10 => EraLinearProgress(blocksMined, 5_800_000, 7_500_000, 900_000_000)
    case 11 => EraLinearProgress(blocksMined, 7_500_000, 9_500_000, 700_000_000)
    case 12 => EraLinearProgress(blocksMined, 9_500_000, 12_000_000, 500_000_000)
    case 13 => EraLinearProgress(blocksMined, 12_000_000, 16_000_000, 300_000_000)
    case 14 => ScarcityMined(blocksMined)
    case _ => 0
  }

  /** It pays, in every era, exactly what the on-chain schedule pays there block by block. */
  lemma EraMinedIsEraSum(era: u8, blocksMined: u64)
    ensures EraMinedLamports(era, blocksMined) == if era <= 14 then EraEmitted(era, blocksMined) else 0
  {
    hide EraEmitted, EraLinearProgress;
    if era < 14 {
      EraTable(era);
      LinearProgressIsEraSum(era, blocksMined);
    }
  }

  /** What the re-implemented schedule shows for the eras before `e` together. */
  function ErasMined(e: nat, n: u64): nat
    requires e <= 15
  {
    if e == 0 then 0 else ErasMined(e - 1, n) + EraMinedLamports(e - 1, n)
  }

  lemma {:induction false} ErasMinedPrefix(e: nat, n: u64)
    requires e <= 14
    ensures ErasMined(e, n) == Emitted(Min(n, EraStart(e)))
  {
    hide RewardForBlock, EraAt, EraMinedLamports;
    EraTable(0);
    if e > 0 {
      EraTable(e - 1);
      ErasMinedPrefix(e - 1, n);
      EraMinedIsEraSum(e - 1, n);
    }
  }

  /** Summed over the eras 0 .. 14 the closed form is the block-by-block sum of the on-chain rewards,
      for every number of settled blocks. */
  lemma ErasSumToEmitted(n: u64)
    ensures ErasMined(15, n) == Emitted(n)
  {
    hide EraMinedLamports, Emitted;
    ErasMinedPrefix(14, n);
    EraMinedIsEraSum(14, n);
  }
}
