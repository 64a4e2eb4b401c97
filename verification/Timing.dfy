/** What the clock does to the difficulty: how long the open block took decides the next target, and a block
    that is opened records the time at which that happened. */
module Timing {
  import opened Ints
  import opened Bytes
  import opened Rewards
  import opened Ledger
  import opened Accounts
  import opened Protocol
  import opened Invariants
  import opened SettlementProof
  import opened Runs
  import Retarget

  predicate Submits(command: Command) {
    command.SubmitSolution? || command.SubmitWithSession?
  }

  /** The seconds from the opening to the settlement, at least one. */
  function Took(s: State, now: Timestamp): int {
    if s.block.openedAt < now then now - s.block.openedAt else 1
  }

  /** The configured block time, at least one second. */
  function Allowed(s: State): int {
    if s.config.targetBlockTimeSec == 0 then 1 else s.config.targetBlockTimeSec
  }

  /** The block after a settlement at `now`: its target is the retarget of the last one for the time that
      one took, its bits are the leading zeros of that, and it carries the next number and this time. */
  predicate RetargetedAt(s: State, t: State, now: Timestamp) {
    var v := Retarget.NextTarget(Val(s.block.difficultyTarget), Took(s, now), Allowed(s),
                                 s.config.minDifficultyBits, s.config.maxDifficultyBits);
    && Val(t.block.difficultyTarget) == v && t.block.difficultyBits == Retarget.BitsOf(v)
    && t.config.difficultyTarget == t.block.difficultyTarget && t.config.difficultyBits == t.block.difficultyBits
    && t.block.blockNumber == t.config.currentBlockNumber == t.config.lastAdjustmentBlock == s.block.blockNumber + 1
    && t.block.openedAt == t.config.lastAdjustmentTimestamp == now
  }

  lemma SettlementTimes(rt: Runtime, s: State, t: State, sub: Submission)
    requires Inv(rt, s) && Processed(rt, s, sub) == Committed(t)
    ensures RetargetedAt(s, t, sub.clock.now)
  {
    hide Processed, Settles, RewardForBlock, TargetBytes, Emission, Credits, Log, Phase, Retarget.NextTarget,
      Retarget.BitsOf, Val;
    var x := ProcessedSettles(rt, s, t, sub);
    SettlementChecks(rt, s, t, sub, x);
    var v := RetargetedValue(s.config, ObservedSeconds(sub.clock.now, s.block.openedAt));
    var _ := SettlementWrites(rt, s, t, sub, x);
    SettlementConfig(rt, s, t, sub, x, v);
    Retarget.NextTargetInBounds(Val(s.config.difficultyTarget), Took(s, sub.clock.now), Allowed(s),
                                s.config.minDifficultyBits, s.config.maxDifficultyBits);
    Retarget.TargetAntitone(s.config.minDifficultyBits, s.config.maxDifficultyBits);
    TargetEncodes(v);
  }

  /** Every committed submission, by the miner or by a delegate, retargets by the clock. */
  lemma SubmissionsRetarget(rt: Runtime, s: State, t: State, call: Call)
    requires Reachable(rt, s) && Submits(call.command)
    requires Step(rt, s, call.clock, call.command) == Committed(t)
    ensures RetargetedAt(s, t, call.clock.now)
  {
    hide Step, Inv, Processed, SubmittedByDelegate, Initialized, Rotated, Retarget.NextTarget, Retarget.BitsOf, Val;
    ReachableInv(rt, s);
    StepCases(rt, s, t, call);
    match call.command
    case SubmitSolution(m, n, d) => SettlementTimes(rt, s, t, Submission(call.clock, m, n, d, m));
    case SubmitWithSession(d, m, n, k) =>
      var settled := DelegateEffect(rt, s, t, call.clock, d, m, n, k);
      SettlementTimes(rt, s, settled, Submission(call.clock, m, n, k, d));
  }

  /** Late blocks ease the difficulty and early blocks harden it: a block that took at least the target
      block time never lowers the target, one that took at most that never raises it, and one that took less
      lowers every target above its floor as soon as the target block time is two seconds or more. */
  lemma LateBlocksEase(rt: Runtime, s: State, t: State, call: Call)
    requires Reachable(rt, s) && Submits(call.command)
    requires Step(rt, s, call.clock, call.command) == Committed(t)
    ensures var took, target := call.clock.now - s.block.openedAt, s.config.targetBlockTimeSec;
      var v, w := Val(s.block.difficultyTarget), Val(t.block.difficultyTarget);
      && (took >= target && took >= 1 ==> w >= v)
      && (took <= target || took <= 1 ==> w <= v)
      && (took < target && target >= 2 && v > Retarget.TargetValue(s.config.maxDifficultyBits) ==> w < v)
  {
    hide Step, Emission, Credits, Log, Phase, Custody, Retarget.NextTarget, Retarget.BitsOf, Retarget.TargetValue, Val;
    ReachableInv(rt, s);
    SubmissionsRetarget(rt, s, t, call);
    LiveBefore(rt, s, t, call);
    Retarget.NextTargetSign(Val(s.block.difficultyTarget), Took(s, call.clock.now), Allowed(s),
                            s.config.minDifficultyBits, s.config.maxDifficultyBits);
  }

  lemma LiveBefore(rt: Runtime, s: State, t: State, call: Call)
    requires Submits(call.command) && Step(rt, s, call.clock, call.command) == Committed(t)
    ensures s.initialized
  {
    hide Settled, SettledInto, SubmissionError, UsedOnce, SessionUseError;
  }

  /** Whatever opens a block stamps it with its own time; nothing else touches block or config. */
  lemma OpeningsAreStamped(rt: Runtime, s: State, t: State, call: Call)
    requires Reachable(rt, s) && Step(rt, s, call.clock, call.command) == Committed(t)
    ensures if Submits(call.command) || call.command.InitializeProtocol? || call.command.RotateStaleBlock? then
              t.block.openedAt == t.config.lastAdjustmentTimestamp == call.clock.now
            else t.block == s.block && t.config == s.config
  {
    hide Step, Processed, SubmittedByDelegate, Rotated, Transfer, Retarget.NextTarget, Retarget.BitsOf, Val;
    StepCases(rt, s, t, call);
    if Submits(call.command) {
      SubmissionsRetarget(rt, s, t, call);
    } else if call.command.RotateStaleBlock? {
      RotationWrites(rt, s, t, call.clock, call.command.caller);
    }
  }
}
