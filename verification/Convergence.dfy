/** How fast the difficulty catches up with a sudden increase in hash power. */
module Convergence {
  import opened Ints
  import opened Powers
  import opened Bytes
  import opened Rewards
  import opened Accounts
  import opened Protocol
  import opened Invariants
  import opened SettlementProof
  import opened Runs
  import opened Timing
  import Retarget

  /** A call that does not rotate and settles, if it settles, within a quarter of the expected time. */
  predicate FastCall(rt: Runtime, s: State, call: Call) {
    Step(rt, s, call.clock, call.command).Committed? ==>
      && !call.command.RotateStaleBlock?
      && (Submits(call.command) ==>
        4 * Max(call.clock.now - s.block.openedAt, 1) <= s.config.targetBlockTimeSec)
  }

  predicate FastRun(rt: Runtime, s: State, calls: seq<Call>) {
    calls == [] ||
    (FastRun(rt, s, calls[..|calls| - 1]) && FastCall(rt, Run(rt, s, calls[..|calls| - 1]), calls[|calls| - 1]))
  }

  function Floor(s: State): nat { Retarget.TargetValue(s.config.maxDifficultyBits) }

  lemma FastSettlement(rt: Runtime, s: State, t: State, sub: Submission)
    requires Inv(rt, s) && Processed(rt, s, sub) == Committed(t)
    requires 4 * Max(sub.clock.now - s.block.openedAt, 1) <= s.config.targetBlockTimeSec
    ensures Val(t.config.difficultyTarget) <= Max(Val(s.config.difficultyTarget) / 4, Floor(s))
    ensures t.config.maxDifficultyBits == s.config.maxDifficultyBits
    ensures t.config.totalBlocksMined == s.config.totalBlocksMined + 1 && t.initialized
  {
    hide Processed, Settles, RewardForBlock, Emission, Credits, Log, Phase, Retarget.NextTarget, Retarget.BitsOf, Val,
      TargetBytes;
    SettlementTimes(rt, s, t, sub);
    var x := ProcessedSettles(rt, s, t, sub);
    SettlementChecks(rt, s, t, sub, x);
    var v := RetargetedValue(s.config, ObservedSeconds(sub.clock.now, s.block.openedAt));
    SettlementConfig(rt, s, t, sub, x, v);
    var _ := SettlementWrites(rt, s, t, sub, x);
    Retarget.FastBlockQuarters(Val(s.block.difficultyTarget), Took(s, sub.clock.now), Allowed(s),
                               s.config.minDifficultyBits, s.config.maxDifficultyBits);
  }

  lemma FastStep(rt: Runtime, s: State, t: State, call: Call)
    requires Inv(rt, s) && s.initialized && t == Next(rt, s, call) && FastCall(rt, s, call)
    ensures t.initialized && t.config.maxDifficultyBits == s.config.maxDifficultyBits
    ensures if t.config.totalBlocksMined == s.config.totalBlocksMined then
              t.config.difficultyTarget == s.config.difficultyTarget
            else
              && t.config.totalBlocksMined == s.config.totalBlocksMined + 1
              && Val(t.config.difficultyTarget) <= Max(Val(s.config.difficultyTarget) / 4, Floor(s))
  {
    hide Inv, Processed, Rotated, SessionError, SessionUseError, SubmissionAccountsError, Val, Retarget.TargetValue;
    if Step(rt, s, call.clock, call.command).Committed? {
      StepCases(rt, s, t, call);
      match call.command
      case SubmitSolution(miner, nonce, account) =>
        FastSettlement(rt, s, t, Submission(call.clock, miner, nonce, account, miner));
      case SubmitWithSession(delegate, miner, nonce, account) =>
        var settled := DelegateEffect(rt, s, t, call.clock, delegate, miner, nonce, account);
        FastSettlement(rt, s, settled, Submission(call.clock, miner, nonce, account, delegate));
      case _ =>
    }
  }

  /** After k fast settlements the target has been quartered k times or sits on its floor. */
  lemma {:induction false} FastRunQuarters(rt: Runtime, s: State, calls: seq<Call>)
    requires Inv(rt, s) && s.initialized && FastRun(rt, s, calls)
    ensures var t := Run(rt, s, calls);
      && Inv(rt, t) && t.initialized && t.config.maxDifficultyBits == s.config.maxDifficultyBits
      && s.config.totalBlocksMined <= t.config.totalBlocksMined
      && Retarget.Quartered(Val(s.config.difficultyTarget), Val(t.config.difficultyTarget), Floor(s),
                            t.config.totalBlocksMined - s.config.totalBlocksMined)
  {
    hide Inv, Next, FastCall, Val, Retarget.TargetValue, Retarget.Quartered;
    var v0 := Val(s.config.difficultyTarget);
    if calls == [] {
      NotYetQuartered(v0, Floor(s));
    } else {
      var before, call := calls[..|calls| - 1], calls[|calls| - 1];
      var m, t := Run(rt, s, before), Run(rt, s, calls);
      FastRunQuarters(rt, s, before);
      StepPreserves(rt, m, call);
      FastStep(rt, m, t, call);
      if t.config.totalBlocksMined != m.config.totalBlocksMined {
        Retarget.QuarteredStep(v0, Val(m.config.difficultyTarget), Val(t.config.difficultyTarget), Floor(s),
                               m.config.totalBlocksMined - s.config.totalBlocksMined);
      }
    }
  }

  lemma NotYetQuartered(v0: nat, floor: nat)
    ensures Retarget.Quartered(v0, v0, floor, 0)
  {}

  /** 128 settlements in a row, each within a quarter of the expected time and none lost to a rotation,
      drive the difficulty to its maximum from any reachable live state. */
  lemma FastBlocksReachMaximum(rt: Runtime, s: State, calls: seq<Call>)
    requires Reachable(rt, s) && s.initialized && FastRun(rt, s, calls)
    requires Run(rt, s, calls).config.totalBlocksMined - s.config.totalBlocksMined >= 128
    ensures var t := Run(rt, s, calls);
      && Val(t.block.difficultyTarget) == Retarget.TargetValue(s.config.maxDifficultyBits)
      && t.block.difficultyBits == s.config.maxDifficultyBits
  {
    hide Run, FastRun, Emission, Custody, Credits, Log, Phase, Val, Retarget.TargetValue, Retarget.BitsOf,
      Retarget.Quartered;
    ReachableInv(rt, s);
    FastRunQuarters(rt, s, calls);
    var t := Run(rt, s, calls);
    TargetBelowLimit(s.config.difficultyTarget);
    Retarget.QuarteredToFloor(Val(s.config.difficultyTarget), Val(t.config.difficultyTarget), Floor(s),
                              t.config.totalBlocksMined - s.config.totalBlocksMined);
    Retarget.BitsRoundTrip(s.config.maxDifficultyBits);
  }

  lemma TargetBelowLimit(target: Bytes32)
    ensures Val(target) < Pow(2, 256)
  {
    ValBound(target);
    Pow256IsPow2(32);
  }
}
