/** When the protocol can come to a standstill, and when it cannot. */
module Liveness {
  import opened Ints
  import opened Powers
  import opened Bytes
  import opened Rewards
  import opened Ledger
  import opened Accounts
  import opened Protocol
  import opened Invariants
  import opened SettlementProof
  import opened Runs
  import opened Emissions
  import opened Submissions
  import opened Convergence
  import Retarget

  /** No hash is below the target, and no rotation eases it. */
  predicate Locked(s: State) {
    && s.initialized
    && Val(s.block.difficultyTarget) == 0
    && (s.config.blockTtlSec <= 0 || s.config.minDifficultyBits == 255)
  }

  /** Nothing was settled, the vault paid nothing, and without a ttl nothing at all has changed. */
  predicate StoodStill(s: State, t: State)
    requires s.config.rewardVault in s.tokens
  {
    && t.config.totalBlocksMined == s.config.totalBlocksMined
    && t.config.rewardVault == s.config.rewardVault && t.config.rewardVault in t.tokens
    && VaultBalance(t) >= VaultBalance(s)
    && (s.config.blockTtlSec <= 0 ==> t.config == s.config && t.block == s.block)
  }

  lemma TargetZeroIff(bits: u8)
    ensures Retarget.TargetValue(bits) == 0 <==> bits == 255
  {
    if bits < 255 { PowMonotone(2, 1, 256 - bits); }
  }

  lemma NeverSettles(rt: Runtime, s: State, sub: Submission)
    requires Val(s.block.difficultyTarget) == 0
    ensures Processed(rt, s, sub).Rejected?
  {
    hide Settles, ProofHash, Val, SettledInto, Settled;
    if Processed(rt, s, sub).Committed? {
      var x := ProcessedSettles(rt, s, Processed(rt, s, sub).state, sub);
      SettlementChecks(rt, s, Processed(rt, s, sub).state, sub, x);
    }
  }

  lemma LockedRotation(rt: Runtime, s: State, t: State, clock: Clock, caller: Pubkey)
    requires Locked(s) && Rotated(rt, s, clock, caller) == Committed(t)
    ensures s.config.blockTtlSec > 0 && Locked(t) && t.config.totalBlocksMined == s.config.totalBlocksMined
  {
    hide Rotated, TargetBytes, Val;
    RotationChecks(rt, s, t, clock, caller);
    RotationWrites(rt, s, t, clock, caller);
    PowPositive(2, 256);
    TargetEncodes(Retarget.TargetValue(255));
  }

  lemma LockedStep(rt: Runtime, s: State, t: State, call: Call)
    requires Inv(rt, s) && Locked(s) && t == Next(rt, s, call)
    ensures Locked(t) && t.config.totalBlocksMined == s.config.totalBlocksMined
    ensures s.config.blockTtlSec <= 0 ==> t.config == s.config && t.block == s.block
  {
    hide Inv, Processed, Rotated, Step, Initialized, SubmittedByDelegate, Transfer, UsedOnce, Val;
    if Step(rt, s, call.clock, call.command).Committed? {
      StepCases(rt, s, t, call);
      match call.command
      case InitializeProtocol(a, args) => InitializeOnce(rt, s, call.clock, a, args);
      case SubmitSolution(miner, nonce, account) =>
        NeverSettles(rt, s, Submission(call.clock, miner, nonce, account, miner));
      case SubmitWithSession(delegate, miner, nonce, account) =>
        var settled := DelegateEffect(rt, s, t, call.clock, delegate, miner, nonce, account);
        NeverSettles(rt, s, Submission(call.clock, miner, nonce, account, delegate));
      case RotateStaleBlock(caller) => LockedRotation(rt, s, t, call.clock, caller);
      case _ =>
    }
  }

  lemma {:induction false} LockedRun(rt: Runtime, s: State, calls: seq<Call>)
    requires Inv(rt, s) && Locked(s)
    ensures var t := Run(rt, s, calls);
      Inv(rt, t) && Locked(t) && s.config.rewardVault in s.tokens && StoodStill(s, t)
  {
    hide Inv, Next, Locked, VaultShift, Emitted, DepositOf;
    LockedInitialized(s);
    VaultIsLocked(rt, s);
    if calls != [] {
      var before, call := calls[..|calls| - 1], calls[|calls| - 1];
      var m, t := Run(rt, s, before), Run(rt, s, calls);
      LockedRun(rt, s, before);
      LockedInitialized(m);
      StepPreserves(rt, m, call);
      LockedStep(rt, m, t, call);
      VaultStep(rt, m, t, call);
      VaultNotLess(m, t, DepositOf(rt, m, call));
    }
  }

  lemma LockedInitialized(s: State)
    requires Locked(s)
    ensures s.initialized
  {}

  lemma VaultNotLess(s: State, t: State, gain: nat)
    requires s.config.rewardVault in s.tokens && VaultShift(s, t, gain)
    requires t.config.totalBlocksMined == s.config.totalBlocksMined
    ensures t.config.rewardVault == s.config.rewardVault && t.config.rewardVault in t.tokens
    ensures VaultBalance(t) >= VaultBalance(s)
  {
    hide Emitted;
  }

  /** A locked state stays locked under any commands whatsoever: no block is ever settled again, and the
      reward vault never pays; without a ttl config and block stay as they are for good. */
  lemma LockedForever(rt: Runtime, s: State, calls: seq<Call>)
    requires Reachable(rt, s) && Locked(s)
    ensures var t := Run(rt, s, calls);
      Locked(t) && s.config.rewardVault in s.tokens && StoodStill(s, t)
  {
    hide Run, Inv;
    ReachableInv(rt, s);
    LockedRun(rt, s, calls);
  }

  /** An initialisation opens its first block at target zero exactly when it asks for 255 bits; it accepts
      that whenever the bounds do. */
  lemma OpeningTargetZeroIff(rt: Runtime, s: State, t: State, clock: Clock, a: InitializeAccounts, args: InitializeArgs)
    requires Initialized(rt, s, clock, a, args) == Committed(t)
    ensures Val(t.block.difficultyTarget) == 0 <==> args.initialDifficultyBits == 255
    ensures args.initialDifficultyBits == 255 && args.blockTtlSec <= 0 ==> Locked(t)
  {
    hide TargetBytes, Val, Retarget.TargetValue;
    var bits := args.initialDifficultyBits;
    OpeningTarget(bits, bits, bits);
    TargetZeroIff(bits);
    assert t.initialized && t.config.blockTtlSec == args.blockTtlSec
        && t.block.difficultyTarget == TargetBytes(Retarget.TargetValue(bits));
  }

  /** With fewer than 255 maximum bits the target of every reachable live state is positive. */
  lemma TargetStaysPositive(rt: Runtime, s: State)
    requires Reachable(rt, s) && s.initialized && s.config.maxDifficultyBits < 255
    ensures Val(s.block.difficultyTarget) > 0 && !Locked(s)
  {
    hide Val, Retarget.TargetValue;
    DifficultyAgrees(rt, s);
    TargetZeroIff(s.config.maxDifficultyBits);
  }

  /** With 255 maximum bits 128 fast settlements bring the target to zero. */
  lemma FastBlocksReachZero(rt: Runtime, s: State, calls: seq<Call>)
    requires Reachable(rt, s) && s.initialized && FastRun(rt, s, calls) && s.config.maxDifficultyBits == 255
    requires Run(rt, s, calls).config.totalBlocksMined - s.config.totalBlocksMined >= 128
    ensures Val(Run(rt, s, calls).block.difficultyTarget) == 0
  {
    hide Run, FastRun, Val;
    FastBlocksReachMaximum(rt, s, calls);
  }

  /** Somebody can sign. */
  lemma SomeSigner(rt: Runtime) returns (key: Pubkey)
    ensures CanSign(rt, key)
  {
    var one: Bytes32, two: Bytes32 := seq(32, _ => 1), seq(32, _ => 2);
    assert one[0] == 1 && two[0] == 2 && DEFAULT_KEY[0] == 0;
    key := if one != rt.vaultAuthority then one else two;
  }

  /** A rotation right after the expiry brings the minimum difficulty back. */
  lemma RotationRevives(rt: Runtime, s: State) returns (call: Call)
    requires Reachable(rt, s) && s.initialized && s.block.status == BLOCK_STATUS_OPEN
    requires s.config.blockTtlSec > 0 && s.config.minDifficultyBits < 255
    requires s.block.blockNumber < U64_MAX && s.block.expiresAt + 1 + s.config.blockTtlSec <= I64_MAX
    ensures Val(Next(rt, s, call).block.difficultyTarget) > 0
  {
    hide Rotated, Val, Retarget.TargetValue;
    var caller := SomeSigner(rt);
    WindowsPartition(rt, s, 0);
    var clock := Clock(0, s.block.expiresAt + 1);
    OpenMeansRewarded(rt, s);
    RotationCommitsIff(rt, s, clock, caller);
    RotationKeepsEmissions(rt, s, Rotated(rt, s, clock, caller).state, clock, caller);
    TargetZeroIff(s.config.minDifficultyBits);
    call := Call(clock, RotateStaleBlock(caller));
  }

  lemma OpenMeansRewarded(rt: Runtime, s: State)
    requires Reachable(rt, s) && s.initialized && s.block.status == BLOCK_STATUS_OPEN
    ensures s.config.totalBlocksMined < REWARDED_BLOCKS
  {
    hide Credits, Log, Agreement, Custody, SessionQuotas, RewardForBlock, Emitted;
    ReachableInv(rt, s);
  }

  /** An open block at target zero can ever get a positive target exactly when the protocol has a ttl and a
      minimum of fewer than 255 bits, as long as a block number and an expiry are left. */
  lemma RevivesIff(rt: Runtime, s: State)
    requires Reachable(rt, s) && s.initialized && s.block.status == BLOCK_STATUS_OPEN
    requires Val(s.block.difficultyTarget) == 0
    requires s.block.blockNumber < U64_MAX
    requires s.config.blockTtlSec > 0 ==> s.block.expiresAt + 1 + s.config.blockTtlSec <= I64_MAX
    ensures (exists calls: seq<Call> :: Val(Run(rt, s, calls).block.difficultyTarget) > 0)
       <==> s.config.blockTtlSec > 0 && s.config.minDifficultyBits < 255
  {
    hide Inv, Next, Val;
    if s.config.blockTtlSec > 0 && s.config.minDifficultyBits < 255 {
      var call := RotationRevives(rt, s);
      assert [call][..0] == [];
      assert Run(rt, s, [call]) == Next(rt, s, call);
    } else {
      forall calls: seq<Call> ensures Val(Run(rt, s, calls).block.difficultyTarget) == 0 {
        LockedForever(rt, s, calls);
      }
    }
  }
}
