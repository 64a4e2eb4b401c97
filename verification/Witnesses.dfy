/** Concrete runs on which the promised fee and the promised progress fail. */
module Witnesses {
  import opened Ints
  import opened Powers
  import opened Bytes
  import opened Wrappers
  import opened Rewards
  import opened Ledger
  import opened Accounts
  import opened Preimages
  import opened Protocol
  import opened Invariants
  import opened Runs
  import opened Submissions
  import opened Fees
  import opened Liveness
  import Retarget

  // ----- a deployment

  function Key(n: byte): (k: Pubkey)
    ensures k[0] == n
  {
    seq(32, _ => n)
  }

  function ZeroHash(p: seq<byte>): Bytes32 { ZERO_32 }

  function Deployment(): Runtime { Runtime(ZeroHash, Key(2)) }

  /** The vault holds all emissions, the treasury's account nothing. */
  function Funded(): Tokens {
    map[Key(3) := TokenAccount(Key(2), TOTAL_PROTOCOL_EMISSIONS), Key(4) := TokenAccount(Key(1), 0)]
  }

  /** Nothing has happened, whatever the unallocated records hold besides their zeroed counters; the
      treasury wallet, Key(1), holds one submit fee. */
  function Before(config: ProtocolConfig, block: CurrentBlock): State {
    State(false, config.(totalBlocksMined := 0, currentBlockNumber := 0, totalRewardsDistributed := 0,
                         totalTreasuryFeesDistributed := 0),
          block, map[], map[], Funded(), map[Key(1) := FIXED_SUBMIT_FEE_LAMPORTS], [])
  }

  function Parties(): InitializeAccounts {
    InitializeAccounts(Key(1), Key(5), 9, Key(3), Key(1), Key(4))
  }

  /** No ttl, and the same number of bits as start, minimum and maximum. */
  function Arguments(bits: u8): InitializeArgs {
    InitializeArgs(TOTAL_PROTOCOL_EMISSIONS, RewardForBlock(0), 100, 1, 1, 1, bits, bits, bits,
                   FIXED_SUBMIT_FEE_LAMPORTS, 0, 9)
  }

  lemma BeforeStarts(config: ProtocolConfig, block: CurrentBlock)
    ensures Starts(Before(config, block))
  {
    var funded := map[Key(3) := TokenAccount(Key(2), TOTAL_PROTOCOL_EMISSIONS)];
    var none: Tokens := map[];
    AmountsUpdate(none, Key(3), TokenAccount(Key(2), TOTAL_PROTOCOL_EMISSIONS));
    SumEmpty(Amounts(none));
    SumUpdate(Amounts(none), Key(3), TOTAL_PROTOCOL_EMISSIONS);
    AmountsUpdate(funded, Key(4), TokenAccount(Key(1), 0));
    SumUpdate(Amounts(funded), Key(4), 0);
    assert Funded() == funded[Key(4) := TokenAccount(Key(1), 0)];
    assert funded == none[Key(3) := TokenAccount(Key(2), TOTAL_PROTOCOL_EMISSIONS)];
  }

  lemma InitializationAccepted(config: ProtocolConfig, block: CurrentBlock, bits: u8)
    ensures Initialized(Deployment(), Before(config, block), Clock(0, 0), Parties(), Arguments(bits)).Committed?
  {
    hide RewardForBlock, RewardEraForBlock, TargetBytes, GenesisPreimage;
    assert Key(1) != Key(2) && Key(3) != Key(4) && Key(1) != DEFAULT_KEY;
  }

  // ----- the treasury pays itself

  function SelfPaidCalls(clock: Clock, a: InitializeAccounts, args: InitializeArgs): seq<Call> {
    [Call(clock, InitializeProtocol(a, args)), Call(clock, RegisterMiner(a.treasuryAuthority, ZERO_32)),
     Call(clock, SubmitSolution(a.treasuryAuthority, 0, a.treasuryVault))]
  }

  lemma RunsOneByOne(rt: Runtime, s0: State, a: Call, b: Call, c: Call)
    ensures Run(rt, s0, [a, b]) == Next(rt, Next(rt, s0, a), b)
    ensures Run(rt, s0, [a, b, c]) == Next(rt, Run(rt, s0, [a, b]), c)
    ensures SelfPaidSettlements(rt, s0, [a, b, c]) >= if SelfPaid(rt, Run(rt, s0, [a, b]), c) then 1 else 0
  {
    hide Next, SelfPaid;
    assert [a][..0] == [] && [a, b][..1] == [a] && [a, b, c][..2] == [a, b];
    assert Run(rt, s0, [a]) == Next(rt, s0, a);
  }

  /** After initialisation and registration the treasury wallet is a miner like any other. */
  lemma TreasuryRegistered(rt: Runtime, s0: State, t: State, clock: Clock, a: InitializeAccounts, args: InitializeArgs)
    requires Starts(s0) && Initialized(rt, s0, clock, a, args).Committed? && CanSign(rt, a.treasuryAuthority)
    requires t == Next(rt, Next(rt, s0, Call(clock, InitializeProtocol(a, args))),
                       Call(clock, RegisterMiner(a.treasuryAuthority, ZERO_32)))
    ensures t.initialized && a.treasuryAuthority in t.miners && t.config.treasuryAuthority == a.treasuryAuthority
    ensures a.treasuryVault in t.tokens && t.tokens[a.treasuryVault].owner == a.treasuryAuthority
    ensures t.config.totalBlocksMined == 0 && t.block.blockNumber == 0 && t.lamports == s0.lamports
    ensures t.config.blockTtlSec == args.blockTtlSec
    ensures NextExpiry(clock.now, args.blockTtlSec) == Some(t.block.expiresAt)
    ensures t.block.difficultyTarget == TargetBytes(Retarget.TargetValue(args.initialDifficultyBits))
  {
    hide RewardForBlock, RewardEraForBlock, TargetBytes, GenesisPreimage, Supply;
  }

  /** Wherever hashes fall below the opening target, the treasury wallet can register, mine the first block
      and pay the fee to itself. */
  lemma SelfPaidRun(rt: Runtime, s0: State, clock: Clock, a: InitializeAccounts, args: InitializeArgs)
    requires Starts(s0) && Initialized(rt, s0, clock, a, args).Committed?
    requires args.blockTtlSec <= 0 && CanSign(rt, a.treasuryAuthority)
    requires Balance(s0.lamports, a.treasuryAuthority) >= FIXED_SUBMIT_FEE_LAMPORTS
    requires forall p :: Val(rt.sha(p)) < Retarget.TargetValue(args.initialDifficultyBits)
    ensures var calls := SelfPaidCalls(clock, a, args);
      && Run(rt, s0, calls).config.totalBlocksMined == 1
      && SelfPaidSettlements(rt, s0, calls) == 1
      && FeesPaid(rt, s0, calls) == FeesReceived(rt, s0, calls) == 0
  {
    hide Inv, Next, Initialized, Submitted, Run, SelfPaidSettlements, FeesPaid, FeesReceived, Balance, Val,
      ProofPreimage, Retarget.TargetValue, TargetBytes;
    var calls := SelfPaidCalls(clock, a, args);
    var x, y, z := calls[0], calls[1], calls[2];
    RunsOneByOne(rt, s0, x, y, z);
    var t := Run(rt, s0, [x, y]);
    TreasuryRegistered(rt, s0, t, clock, a, args);
    OpeningTarget(args.initialDifficultyBits, args.initialDifficultyBits, args.initialDifficultyBits);
    assert Reachable(rt, t);
    SubmissionCommitsIff(rt, t, clock, a.treasuryAuthority, 0, a.treasuryVault);
    RunInv(rt, s0, [x, y]);
    FeeStep(rt, t, Run(rt, s0, calls), z);
    FeesMove(rt, s0, calls);
  }

  /** One concrete run, from every start of this deployment: one block is settled and the treasury wallet has
      earned no fee. */
  lemma SelfPaidHappens(config: ProtocolConfig, block: CurrentBlock)
    ensures var rt, s0 := Deployment(), Before(config, block);
      var calls := SelfPaidCalls(Clock(0, 0), Parties(), Arguments(0));
      && Starts(s0)
      && Run(rt, s0, calls).config.totalBlocksMined == 1
      && SelfPaidSettlements(rt, s0, calls) == 1
      && FeesReceived(rt, s0, calls) == 0
  {
    hide Starts, Initialized, Run, SelfPaidSettlements, FeesPaid, FeesReceived, SelfPaidCalls, Val, Pow, RewardForBlock;
    BeforeStarts(config, block);
    InitializationAccepted(config, block, 0);
    ValZeros(ZERO_32);
    TargetZeroIff(0);
    SelfPaidRun(Deployment(), Before(config, block), Clock(0, 0), Parties(), Arguments(0));
  }

  // ----- the vault is locked

  /** One concrete initialisation after which no block is ever settled: 255 bits and no ttl. */
  lemma LockHappens(config: ProtocolConfig, block: CurrentBlock, calls: seq<Call>)
    ensures var rt, s0 := Deployment(), Before(config, block);
      var s := Next(rt, s0, Call(Clock(0, 0), InitializeProtocol(Parties(), Arguments(255))));
      && Starts(s0) && Reachable(rt, s) && Locked(s)
      && s.config.rewardVault in s.tokens && StoodStill(s, Run(rt, s, calls))
  {
    hide Starts, Initialized, Locked, StoodStill, RewardForBlock;
    var rt, s0 := Deployment(), Before(config, block);
    var call := Call(Clock(0, 0), InitializeProtocol(Parties(), Arguments(255)));
    var s := Next(rt, s0, call);
    BeforeStarts(config, block);
    InitializationAccepted(config, block, 255);
    OpeningTargetZeroIff(rt, s0, s, Clock(0, 0), Parties(), Arguments(255));
    assert s0 == Run(rt, s0, []);
    assert Reachable(rt, s0);
    ReachableNext(rt, s0, call);
    LockedForever(rt, s, calls);
  }
}
