/** Every command keeps the invariant, hence every run does. */
module Runs {
  import opened Ints
  import opened Bytes
  import opened Wrappers
  import opened Rewards
  import opened Ledger
  import opened Accounts
  import opened Protocol
  import opened EventLog
  import opened Sums
  import opened Invariants
  import opened SettlementProof
  import Retarget

  // ----- stale rotation

  lemma RotationChecks(rt: Runtime, s: State, t: State, clock: Clock, caller: Pubkey)
    requires Rotated(rt, s, clock, caller) == Committed(t)
    ensures s.initialized && s.block.status == BLOCK_STATUS_OPEN && s.config.blockTtlSec > 0
    ensures 0 < s.block.expiresAt < clock.now
    ensures s.block.blockReward == RewardForBlock(s.config.totalBlocksMined) > 0
    ensures FitsU64(s.block.blockNumber + 1)
    ensures NextExpiry(clock.now, s.config.blockTtlSec).Some?
  {
    hide RewardForBlock;
  }

  /** What a rotation writes: a new number, the minimum difficulty, a new challenge and expiry. */
  lemma RotationWrites(rt: Runtime, s: State, t: State, clock: Clock, caller: Pubkey)
    requires Rotated(rt, s, clock, caller) == Committed(t)
    ensures FitsU64(s.block.blockNumber + 1)
    ensures t == s.(config := t.config, block := t.block, events := t.events)
    ensures t.config == s.config.(
      difficultyBits := s.config.minDifficultyBits,
      difficultyTarget := TargetBytes(Retarget.TargetValue(s.config.minDifficultyBits)),
      lastAdjustmentTimestamp := clock.now,
      lastAdjustmentBlock := s.block.blockNumber + 1,
      currentBlockNumber := s.block.blockNumber + 1)
    ensures t.block == CurrentBlock(
      s.block.blockNumber + 1, rt.sha(RotatedChallengePreimage(s.block, clock, caller, s.block.blockNumber + 1)),
      t.config.difficultyBits, BLOCK_STATUS_OPEN, t.config.difficultyTarget, s.block.blockReward, clock.now,
      NextExpiry(clock.now, s.config.blockTtlSec).value, DEFAULT_KEY, 0, ZERO_32, 0)
    ensures |t.events| == |s.events| + 3
    ensures t.events[|s.events|].DifficultyAdjusted? && t.events[|s.events| + 1].BlockStaleRotated?
    ensures t.events[|s.events| + 2].BlockOpened? && t.events[|s.events| + 2].blockNumber == s.block.blockNumber + 1
    ensures t.events[|s.events| + 2].challenge == t.block.challenge
    ensures t.events == s.events + t.events[|s.events|..]
  {
    hide RewardForBlock, TargetBytes, Retarget.TargetValue;
    RotationChecks(rt, s, t, clock, caller);
    assert RewardEraForBlock(s.config.totalBlocksMined).reward == s.block.blockReward by {
      RewardOfEra(s.config.totalBlocksMined);
    }
  }

  lemma RewardOfEra(n: u64)
    ensures RewardEraForBlock(n).reward == RewardForBlock(n)
  {}

  lemma RotationLog(s: State, t: State, adjusted: Event, rotated: Event, opening: Event)
    requires Log(s) && s.block.blockNumber == s.config.currentBlockNumber
    requires t.events == s.events + [adjusted, rotated, opening]
    requires adjusted.DifficultyAdjusted? && rotated.BlockStaleRotated?
    requires opening.BlockOpened? && opening.blockNumber == s.config.currentBlockNumber + 1
    requires t.config.currentBlockNumber == s.config.currentBlockNumber + 1
    requires t.config.totalBlocksMined == s.config.totalBlocksMined
    requires t.config.totalRewardsDistributed == s.config.totalRewardsDistributed
    requires t.config.totalTreasuryFeesDistributed == s.config.totalTreasuryFeesDistributed
    ensures Log(t)
  {
    hide Total;
    forall f: Event -> nat ensures Total(f, t.events) == Total(f, s.events) + f(adjusted) + f(rotated) + f(opening) {
      TotalSnoc(f, s.events, adjusted);
      TotalSnoc(f, s.events + [adjusted], rotated);
      TotalSnoc(f, s.events + [adjusted] + [rotated], opening);
      assert t.events == s.events + [adjusted] + [rotated] + [opening];
    }
    OpenedAscendExtends(s.events, [adjusted, rotated, opening], s.config.currentBlockNumber);
  }

  lemma RotationPreserves(rt: Runtime, s: State, t: State, clock: Clock, caller: Pubkey)
    requires Inv(rt, s) && Rotated(rt, s, clock, caller) == Committed(t)
    ensures Inv(rt, t)
    ensures VaultBalance(t) == VaultBalance(s) && t.config.totalBlocksMined == s.config.totalBlocksMined
    ensures t.block.blockReward == s.block.blockReward
  {
    hide Rotated, RewardForBlock, TargetBytes, Retarget.TargetValue, Retarget.BitsOf, WonBy, Sum, Total, Log;
    RotationChecks(rt, s, t, clock, caller);
    RotationWrites(rt, s, t, clock, caller);
    OpeningTarget(s.config.minDifficultyBits, s.config.minDifficultyBits, s.config.maxDifficultyBits);
    var n := |s.events|;
    var more := [t.events[n], t.events[n + 1], t.events[n + 2]];
    assert t.events == s.events + more;
    RotationLog(s, t, t.events[n], t.events[n + 1], t.events[n + 2]);
    CreditsFrame(rt, s, t, more);
    SessionsFrame(s, t);
  }

  // ----- delegated submission

  lemma DelegateEffect(rt: Runtime, s: State, t: State, clock: Clock, delegate: Pubkey, miner: Pubkey, nonce: u64,
                       destination: Pubkey) returns (settled: State)
    requires SubmittedByDelegate(rt, s, clock, delegate, miner, nonce, destination) == Committed(t)
    ensures Processed(rt, s, Submission(clock, miner, nonce, destination, delegate)) == Committed(settled)
    ensures CanSign(rt, delegate) && miner in s.sessions && SessionError(s, delegate, miner).None?
    ensures SessionUseError(s.sessions[miner], clock.now).None? && FitsU64(s.sessions[miner].submissionsUsed + 1)
    ensures t == settled.(sessions := settled.sessions[miner := UsedOnce(s.sessions[miner], clock.now)])
  {
    hide Processed, SubmissionAccountsError;
    settled := Processed(rt, s, Submission(clock, miner, nonce, destination, delegate)).state;
  }

  /** Spending one use of a session keeps the invariant. */
  lemma UsePreserves(rt: Runtime, s: State, t: State, miner: Pubkey, session: MiningSession, now: Timestamp)
    requires Inv(rt, s) && FitsU64(session.submissionsUsed + 1)
    requires session.miner == miner && session.active && !QuotaReached(session)
    requires session.submissionsUsed < s.config.totalBlocksMined
    requires t == s.(sessions := s.sessions[miner := UsedOnce(session, now)])
    ensures Inv(rt, t)
  {
    hide WonBy, Sum, Total;
    assert SessionQuotas(t);
    assert Credits(rt, t) by {
      forall k: Pubkey ensures WonBy(t.events, k) == Recorded(t, k) { assert Recorded(t, k) == Recorded(s, k); }
    }
  }

  lemma DelegatePreserves(rt: Runtime, s: State, t: State, clock: Clock, delegate: Pubkey, miner: Pubkey, nonce: u64,
                          destination: Pubkey)
    requires Inv(rt, s) && SubmittedByDelegate(rt, s, clock, delegate, miner, nonce, destination) == Committed(t)
    ensures Inv(rt, t)
  {
    hide SubmittedByDelegate, Processed, Blank, Custody, Emission, Agreement, Phase, Credits, Log, UsedOnce;
    var settled := DelegateEffect(rt, s, t, clock, delegate, miner, nonce, destination);
    SettlementPreserves(rt, s, settled, Submission(clock, miner, nonce, destination, delegate));
    UsePreserves(rt, settled, t, miner, s.sessions[miner], clock.now);
  }

  // ----- all commands, all runs

  /** What a committed command did, case by case. */
  lemma StepCases(rt: Runtime, s: State, t: State, call: Call)
    requires Step(rt, s, call.clock, call.command) == Committed(t)
    ensures match call.command
            case InitializeProtocol(a, args) => Initialized(rt, s, call.clock, a, args) == Committed(t)
            case RegisterMiner(_, _) => t == s.(miners := t.miners)
            case UpdateNickname(_, _) => t == s.(miners := t.miners)
            case SubmitSolution(m, n, d) =>
              CanSign(rt, m) && Processed(rt, s, Submission(call.clock, m, n, d, m)) == Committed(t)
            case AuthorizeSession(m, d, e, max) =>
              t == s.(sessions := s.sessions[m := MiningSession(m, d, e, max, 0, call.clock.now, 0, true)])
            case SubmitWithSession(d, m, n, k) => SubmittedByDelegate(rt, s, call.clock, d, m, n, k) == Committed(t)
            case RotateStaleBlock(c) => Rotated(rt, s, call.clock, c) == Committed(t)
            case TransferTokens(f, k, amount) =>
              && f in s.tokens && k in s.tokens && CanSign(rt, s.tokens[f].owner)
              && Transfer(s.tokens, f, k, amount) == Some(t.tokens) && t == s.(tokens := t.tokens)
            case OpenTokenAccount(k, o) => k !in s.tokens && t == s.(tokens := s.tokens[k := TokenAccount(o, 0)])
            case SetLamports(_, _) => t == s.(lamports := t.lamports)
  {
    hide Initialized, Processed, SubmittedByDelegate, Rotated, Transfer, RegisteredStats;
  }

  lemma StepPreserves(rt: Runtime, s: State, call: Call)
    requires Inv(rt, s)
    ensures Inv(rt, Next(rt, s, call))
  {
    hide Inv, Initialized, Registered, Renamed, Submitted, Processed, Authorized, SubmittedByDelegate, Rotated,
      TokensMoved, TokenAccountOpened;
    var t, clock := Next(rt, s, call), call.clock;
    if Step(rt, s, clock, call.command).Committed? {
      match call.command
      case InitializeProtocol(accounts, args) => InitializePreserves(rt, s, t, clock, accounts, args);
      case RegisterMiner(miner, nickname) => RegisterPreserves(rt, s, t, miner, nickname);
      case UpdateNickname(miner, nickname) => RenamePreserves(rt, s, t, miner, nickname);
      case SubmitSolution(miner, nonce, account) => SubmitPreserves(rt, s, t, clock, miner, nonce, account);
      case AuthorizeSession(miner, delegate, expiresAt, max) =>
        AuthorizePreserves(rt, s, t, clock, miner, delegate, expiresAt, max);
      case SubmitWithSession(delegate, miner, nonce, account) =>
        DelegatePreserves(rt, s, t, clock, delegate, miner, nonce, account);
      case RotateStaleBlock(caller) => RotationPreserves(rt, s, t, clock, caller);
      case TransferTokens(from, to, amount) => TokensMovedPreserves(rt, s, t, from, to, amount);
      case OpenTokenAccount(key, owner) => TokenAccountOpenedPreserves(rt, s, t, key, owner);
      case SetLamports(key, balance) => LamportsPreserve(rt, s, t);
    }
  }

  lemma SubmitPreserves(rt: Runtime, s: State, t: State, clock: Clock, miner: Pubkey, nonce: u64, destination: Pubkey)
    requires Inv(rt, s) && Submitted(rt, s, clock, miner, nonce, destination) == Committed(t)
    ensures Inv(rt, t)
  {
    hide Inv, Processed;
    SettlementPreserves(rt, s, t, Submission(clock, miner, nonce, destination, miner));
  }

  lemma LamportsPreserve(rt: Runtime, s: State, t: State)
    requires Inv(rt, s) && t == s.(lamports := t.lamports)
    ensures Inv(rt, t)
  {
    LedgersPreserve(rt, s, t);
  }

  /** The states a deployment can reach: any commands, at any times, from any ledgers that a mint
      with a u64 supply allows. */
  ghost predicate Reachable(rt: Runtime, s: State) {
    exists s0: State, calls: seq<Call> :: Starts(s0) && s == Run(rt, s0, calls)
  }

  ghost predicate Starts(s0: State) {
    Fresh(s0) && Supply(s0.tokens) <= U64_MAX
  }

  lemma {:induction false} RunInv(rt: Runtime, s0: State, calls: seq<Call>)
    requires Starts(s0)
    ensures Inv(rt, Run(rt, s0, calls))
  {
    hide Inv, Next;
    if calls == [] {
      FreshInv(rt, s0);
    } else {
      RunInv(rt, s0, calls[..|calls| - 1]);
      StepPreserves(rt, Run(rt, s0, calls[..|calls| - 1]), calls[|calls| - 1]);
    }
  }

  /** The invariant holds in every reachable state. */
  lemma ReachableInv(rt: Runtime, s: State)
    requires Reachable(rt, s)
    ensures Inv(rt, s)
  {
    hide Inv;
    var s0: State, calls: seq<Call> :| Starts(s0) && s == Run(rt, s0, calls);
    RunInv(rt, s0, calls);
  }
  /** Every instruction, committed or rejected, leads from a reachable state to a reachable state. */
  lemma ReachableNext(rt: Runtime, s: State, call: Call)
    requires Reachable(rt, s)
    ensures Reachable(rt, Next(rt, s, call))
  {
    hide Next;
    var s0: State, calls: seq<Call> :| Starts(s0) && s == Run(rt, s0, calls);
    assert (calls + [call])[..|calls|] == calls;
    assert Next(rt, s, call) == Run(rt, s0, calls + [call]);
  }

  /** In every reachable live state config and block agree on number, bits and target, the target lies
      between the targets of the two bit bounds, and the bits are the leading zeros of the target. */
  lemma DifficultyAgrees(rt: Runtime, s: State)
    requires Reachable(rt, s) && s.initialized
    ensures s.block.blockNumber == s.config.currentBlockNumber
    ensures s.block.difficultyTarget == s.config.difficultyTarget && s.block.difficultyBits == s.config.difficultyBits
    ensures var v := Val(s.block.difficultyTarget);
      && Retarget.TargetValue(s.config.maxDifficultyBits) <= v <= Retarget.TargetValue(s.config.minDifficultyBits)
      && s.block.difficultyBits == Retarget.BitsOf(v)
    ensures s.config.minDifficultyBits <= s.block.difficultyBits <= s.config.maxDifficultyBits
  {
    hide Credits, Log, Emission, Custody, Phase, SessionQuotas, Val, Retarget.TargetValue, Retarget.BitsOf;
    ReachableInv(rt, s);
  }
}
