/** What observers are told: the events of settlements and rotations in plain terms, together with the records
    they report on. */
module Announcements {
  import opened Ints
  import opened Bytes
  import opened Rewards
  import opened Ledger
  import opened Accounts
  import opened Preimages
  import opened Protocol
  import opened Invariants
  import opened SettlementProof
  import opened Runs
  import opened Timing
  import Retarget

  /** A settlement tells who solved which block how, what the block paid and to whom. */
  function SolvedEvent(rt: Runtime, s: State, sub: Submission): Event {
    var n, b := s.config.totalBlocksMined, s.block;
    BlockSolved(b.blockNumber, sub.miner, sub.nonce, rt.sha(ProofPreimage(b.challenge, sub.miner, sub.nonce)),
                b.challenge, b.difficultyBits, b.difficultyTarget, RewardEraForBlock(n).index, RewardForBlock(n),
                RewardForBlock(n) - RewardForBlock(n) / 100, RewardForBlock(n) / 100, 10_000_000, sub.clock.now)
  }

  /** The change of the target, if there was one. */
  function AdjustedEvents(s: State, t: State, seconds: u64): seq<Event>
    requires s.block.blockNumber < U64_MAX
  {
    [DifficultyAdjusted(s.block.blockNumber + 1, s.block.difficultyBits, t.block.difficultyBits, seconds, Allowed(s))]
  }

  /** The block that is open afterwards, if one is. */
  function OpenedEvents(t: State): seq<Event> {
    var n, b := t.config.totalBlocksMined, t.block;
    if n >= REWARDED_BLOCKS then []
    else [BlockOpened(b.blockNumber, b.challenge, b.difficultyBits, RewardEraForBlock(n).index, RewardForBlock(n),
                      b.openedAt)]
  }

  lemma EraRewards(n: u64)
    ensures RewardEraForBlock(n).reward == RewardForBlock(n)
    ensures RewardForBlock(n) > 0 <==> n < REWARDED_BLOCKS
  {
    RewardsNonIncreasing(n, n);
  }

  /** The events of a settlement. */
  lemma SettlementAnnounced(rt: Runtime, s: State, t: State, sub: Submission)
    requires Reachable(rt, s) && Processed(rt, s, sub) == Committed(t)
    ensures s.block.blockNumber < U64_MAX
    ensures t.events == s.events + [SolvedEvent(rt, s, sub)]
      + (if t.block.difficultyTarget == s.block.difficultyTarget then []
         else AdjustedEvents(s, t, Took(s, sub.clock.now)))
      + OpenedEvents(t)
  {
    hide RewardForBlock, RewardEraForBlock, Settled, SubmissionError, SubmissionAccountsError, TargetBytes, Credits,
      Log, Emission, Phase, Retarget.NextTarget, Retarget.BitsOf, Val, Sum, ProofPreimage;
    ReachableInv(rt, s);
    var x := ProcessedSettles(rt, s, t, sub);
    SettlementAmounts(rt, s, t, sub, x);
    SettlementTimes(rt, s, t, sub);
    SettlementConfig(rt, s, t, sub, x, RetargetedValue(s.config, ObservedSeconds(sub.clock.now, s.block.openedAt)));
    EraRewards(t.config.totalBlocksMined);
    EraRewards(s.config.totalBlocksMined);
  }

  /** What a settlement writes: one more submission, block and share in the miner's record, dated now; and the
      next block, unsolved, open at the next reward of the schedule until its expiry, or, after the last one,
      closed and empty. */
  lemma SettlementRecorded(rt: Runtime, s: State, t: State, sub: Submission)
    requires Reachable(rt, s) && Processed(rt, s, sub) == Committed(t)
    ensures var n := s.config.totalBlocksMined;
      && sub.miner in s.miners && t.miners.Keys == s.miners.Keys
      && t.miners[sub.miner].totalSubmissions == s.miners[sub.miner].totalSubmissions + 1
      && t.miners[sub.miner].validBlocksFound == s.miners[sub.miner].validBlocksFound + 1
      && t.miners[sub.miner].totalRewardsEarned
         == s.miners[sub.miner].totalRewardsEarned + RewardForBlock(n) - RewardForBlock(n) / 100
      && t.miners[sub.miner].lastSubmissionTime == sub.clock.now
    ensures var n := t.config.totalBlocksMined;
      && n == s.config.totalBlocksMined + 1
      && t.block.blockReward == RewardForBlock(n)
      && t.block.winner == DEFAULT_KEY && t.block.winningNonce == 0 && t.block.winningHash == ZERO_32
      && t.block.solvedAt == 0
      && if n < REWARDED_BLOCKS then
           && t.block.status == 1
           && t.block.challenge == rt.sha(NextPreimage(
                rt.sha(ProofPreimage(s.block.challenge, sub.miner, sub.nonce)), s.block.challenge, sub.miner, sub.nonce,
                t.block.blockNumber, sub.clock.slot, sub.clock.now))
           && t.block.expiresAt == (if s.config.blockTtlSec > 0 then sub.clock.now + s.config.blockTtlSec else 0)
         else t.block.status == 2 && t.block.challenge == ZERO_32 && t.block.expiresAt == 0
  {
    hide RewardForBlock, RewardEraForBlock, Settles, SubmissionError, SubmissionAccountsError, TargetBytes, Credits,
      Log, Emission, Phase, Agreement, Retarget.NextTarget, Retarget.BitsOf, Val, Sum, ProofPreimage, NextPreimage;
    ReachableInv(rt, s);
    var x := ProcessedSettles(rt, s, t, sub);
    SettlementAmounts(rt, s, t, sub, x);
    SettlementParts(rt, s, t, sub, x);
    SettlementConfig(rt, s, t, sub, x, RetargetedValue(s.config, ObservedSeconds(sub.clock.now, s.block.openedAt)));
    var _ := SettlementWrites(rt, s, t, sub, x);
    EraRewards(t.config.totalBlocksMined);
  }

  /** What a rotation writes: the next block, at the easiest target, on a challenge made from the stale one and
      the caller, with a new expiry. */
  lemma RotationRecorded(rt: Runtime, s: State, t: State, clock: Clock, caller: Pubkey)
    requires Reachable(rt, s) && Rotated(rt, s, clock, caller) == Committed(t)
    ensures var b, next := t.block, s.block.blockNumber + 1;
      && b.blockNumber == t.config.currentBlockNumber == t.config.lastAdjustmentBlock == next
      && b.challenge
         == rt.sha(RotatePreimage(s.block.challenge, caller, s.block.blockNumber, next, clock.slot, clock.now))
      && b.difficultyBits == t.config.difficultyBits == s.config.minDifficultyBits
      && Val(b.difficultyTarget) == Retarget.TargetValue(s.config.minDifficultyBits)
      && t.config.difficultyTarget == b.difficultyTarget
      && b.openedAt == t.config.lastAdjustmentTimestamp == clock.now
      && b.expiresAt == clock.now + s.config.blockTtlSec
      && b.status == 1 && b.blockReward == s.block.blockReward
      && b.winner == DEFAULT_KEY && b.winningNonce == 0 && b.winningHash == ZERO_32 && b.solvedAt == 0
  {
    hide RewardForBlock, RewardEraForBlock, TargetBytes, Credits, Log, Emission, Retarget.TargetValue,
      Retarget.BitsOf, Val, Sum, RotatePreimage;
    ReachableInv(rt, s);
    RotationChecks(rt, s, t, clock, caller);
    RotationWrites(rt, s, t, clock, caller);
    OpeningTarget(s.config.minDifficultyBits, s.config.minDifficultyBits, s.config.maxDifficultyBits);
  }

  /** A rotation tells how long the block has been stale, and by how much the difficulty falls; since it comes
      after the expiry, the block was open for longer than the ttl. */
  lemma RotationAnnounced(rt: Runtime, s: State, t: State, clock: Clock, caller: Pubkey)
    requires Reachable(rt, s) && Rotated(rt, s, clock, caller) == Committed(t)
    ensures s.block.blockNumber < U64_MAX && s.config.totalBlocksMined < REWARDED_BLOCKS
    ensures clock.now - s.block.openedAt > s.config.blockTtlSec > 0
    ensures t.events == s.events + AdjustedEvents(s, t, clock.now - s.block.openedAt) + [BlockStaleRotated(
        s.block.blockNumber, s.block.blockNumber + 1, caller, s.block.difficultyBits, s.config.minDifficultyBits,
        RewardEraForBlock(s.config.totalBlocksMined).index, RewardForBlock(s.config.totalBlocksMined),
        clock.now - s.block.openedAt, clock.now)]
      + OpenedEvents(t)
  {
    hide RewardForBlock, RewardEraForBlock, TargetBytes, Credits, Log, Emission, Retarget.TargetValue,
      Retarget.BitsOf, Val, Sum, RotatedChallengePreimage;
    ReachableInv(rt, s);
    RotationChecks(rt, s, t, clock, caller);
    RotationWrites(rt, s, t, clock, caller);
    EraRewards(s.config.totalBlocksMined);
  }
}
