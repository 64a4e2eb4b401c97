/** Emission, custody and accounting over whole runs. */
module Emissions {
  import opened Ints
  import opened Wrappers
  import opened Rewards
  import opened Ledger
  import opened Accounts
  import opened Protocol
  import opened EventLog
  import opened Sums
  import opened Invariants
  import opened SettlementProof
  import opened Runs
  import EraProgress

  /** What a call puts into the reward vault from outside the program. */
  function DepositOf(rt: Runtime, s: State, call: Call): nat {
    if s.initialized && call.command.TransferTokens? && call.command.to == s.config.rewardVault
       && call.command.from != call.command.to && Step(rt, s, call.clock, call.command).Committed?
    then call.command.amount
    else 0
  }

  function Deposits(rt: Runtime, s0: State, calls: seq<Call>): nat {
    if calls == [] then 0
    else
      var before := calls[..|calls| - 1];
      Deposits(rt, s0, before) + DepositOf(rt, Run(rt, s0, before), calls[|calls| - 1])
  }

  /** The vault and what is still to be paid, side by side. */
  predicate VaultShift(s: State, t: State, gain: nat)
    requires s.config.rewardVault in s.tokens
  {
    && t.initialized && t.config.rewardVault == s.config.rewardVault && t.config.rewardVault in t.tokens
    && VaultBalance(t) + Emitted(t.config.totalBlocksMined)
       == VaultBalance(s) + Emitted(s.config.totalBlocksMined) + gain
  }

  /** Only settlements take from the vault, and each takes the reward of the block it settles. */
  lemma VaultStep(rt: Runtime, s: State, t: State, call: Call)
    requires Inv(rt, s) && s.initialized && t == Next(rt, s, call)
    ensures s.config.rewardVault in s.tokens && VaultShift(s, t, DepositOf(rt, s, call))
  {
    hide Inv, Processed, Rotated, Emitted, Step, Initialized, SubmittedByDelegate, Transfer, UsedOnce;
    VaultIsLocked(rt, s);
    if Step(rt, s, call.clock, call.command).Committed? {
      StepCases(rt, s, t, call);
      match call.command
      case InitializeProtocol(a, args) => InitializeOnce(rt, s, call.clock, a, args);
      case SubmitSolution(miner, nonce, account) =>
        VaultPays(rt, s, t, Submission(call.clock, miner, nonce, account, miner));
      case SubmitWithSession(delegate, miner, nonce, account) =>
        var settled := DelegateEffect(rt, s, t, call.clock, delegate, miner, nonce, account);
        VaultPays(rt, s, settled, Submission(call.clock, miner, nonce, account, delegate));
      case RotateStaleBlock(caller) => RotationWrites(rt, s, t, call.clock, caller);
      case TransferTokens(from, to, amount) => VaultReceives(rt, s, t, from, to, amount);
      case _ =>
    }
  }

  lemma VaultIsLocked(rt: Runtime, s: State)
    requires Inv(rt, s) && s.initialized
    ensures s.config.rewardVault in s.tokens && !CanSign(rt, s.tokens[s.config.rewardVault].owner)
  {}

  lemma VaultReceives(rt: Runtime, s: State, t: State, from: Pubkey, to: Pubkey, amount: u64)
    requires s.config.rewardVault in s.tokens && !CanSign(rt, s.tokens[s.config.rewardVault].owner)
    requires from in s.tokens && to in s.tokens && CanSign(rt, s.tokens[from].owner)
    requires Transfer(s.tokens, from, to, amount) == Some(t.tokens) && t == s.(tokens := t.tokens)
    ensures s.config.rewardVault in t.tokens
    ensures VaultBalance(t) == VaultBalance(s) + if to == s.config.rewardVault && from != to then amount else 0
  {
    hide Transfer, Supply;
    TransferMoves(s.tokens, from, to, amount);
  }

  lemma InitializeOnce(rt: Runtime, s: State, clock: Clock, a: InitializeAccounts, args: InitializeArgs)
    requires s.initialized
    ensures Initialized(rt, s, clock, a, args).Rejected?
  {}

  lemma VaultPays(rt: Runtime, s: State, t: State, sub: Submission)
    requires Inv(rt, s) && Processed(rt, s, sub) == Committed(t)
    ensures s.config.rewardVault in s.tokens && VaultShift(s, t, 0)
  {
    hide Inv, Processed, Settles, RewardForBlock, TargetBytes;
    var x := ProcessedSettles(rt, s, t, sub);
    SettlementAmounts(rt, s, t, sub, x);
    SettlementEmission(rt, s, t, sub, x);
    var _ := SettlementWrites(rt, s, t, sub, x);
    SettlementConfig(rt, s, t, sub, x, RetargetedValue(s.config, ObservedSeconds(sub.clock.now, s.block.openedAt)));
    RewardWithinRemainder(s.config.totalBlocksMined);
  }

  /** Over every run the reward vault holds exactly the fixed emissions, minus the scheduled rewards of
      the settled blocks, plus what outsiders deposited. */
  lemma {:induction false} VaultIsExact(rt: Runtime, s0: State, calls: seq<Call>)
    requires Starts(s0)
    ensures var s := Run(rt, s0, calls);
      if s.initialized then
        s.config.rewardVault in s.tokens
        && VaultBalance(s) + Emitted(s.config.totalBlocksMined) == TOTAL_PROTOCOL_EMISSIONS + Deposits(rt, s0, calls)
      else Deposits(rt, s0, calls) == 0
  {
    hide Inv, Next, Step;
    if calls != [] {
      var before, call := calls[..|calls| - 1], calls[|calls| - 1];
      var s, t := Run(rt, s0, before), Run(rt, s0, calls);
      VaultIsExact(rt, s0, before);
      RunInv(rt, s0, before);
      if s.initialized {
        VaultStep(rt, s, t, call);
      } else if t.initialized {
        VaultFunded(rt, s, t, call);
      }
    }
  }

  /** Only initialisation makes the protocol live, and it does so with a full vault. */
  lemma VaultFunded(rt: Runtime, s: State, t: State, call: Call)
    requires Inv(rt, s) && !s.initialized && t == Next(rt, s, call) && t.initialized
    ensures t.config.rewardVault in t.tokens && VaultBalance(t) == TOTAL_PROTOCOL_EMISSIONS
    ensures t.config.totalBlocksMined == 0
  {
    hide Inv, Initialized;
    if !call.command.InitializeProtocol? { StaysBlank(rt, s, call); }
    InitializeEffect(rt, s, t, call.clock, call.command.accounts, call.command.args);
  }

  lemma StaysBlank(rt: Runtime, s: State, call: Call)
    requires !s.initialized && !call.command.InitializeProtocol?
    ensures !Next(rt, s, call).initialized
  {
    hide Step, Processed, SubmissionError, SubmittedByDelegate, Rotated, Transfer;
    var t := Next(rt, s, call);
    if Step(rt, s, call.clock, call.command).Committed? {
      StepCases(rt, s, t, call);
      NoBlockYet(rt, s, call.clock, call.command);
    }
  }

  lemma NoBlockYet(rt: Runtime, s: State, clock: Clock, command: Command)
    requires !s.initialized
    ensures match command
            case SubmitSolution(m, n, d) => Processed(rt, s, Submission(clock, m, n, d, m)).Rejected?
            case SubmitWithSession(d, m, n, k) => SubmittedByDelegate(rt, s, clock, d, m, n, k).Rejected?
            case RotateStaleBlock(c) => Rotated(rt, s, clock, c).Rejected?
            case _ => true
  {
    hide SubmissionError, Settled, SettledInto, UsedOnce, RotationError, SuccessorBlock;
  }

  /** The emission law of every reachable live state without outside deposits: vault and counters are
      exact, and the open block closes exactly when the last reward is paid and the vault is empty. */
  lemma EmissionLaw(rt: Runtime, s0: State, calls: seq<Call>)
    requires Starts(s0) && Run(rt, s0, calls).initialized && Deposits(rt, s0, calls) == 0
    ensures var s := Run(rt, s0, calls);
      && s.config.totalRewardsDistributed == Emitted(s.config.totalBlocksMined)
      && s.config.rewardVault in s.tokens
      && VaultBalance(s) == TOTAL_PROTOCOL_EMISSIONS - Emitted(s.config.totalBlocksMined)
      && (s.block.status == BLOCK_STATUS_CLOSED <==> s.config.totalBlocksMined == REWARDED_BLOCKS)
      && (s.block.status == BLOCK_STATUS_CLOSED <==> VaultBalance(s) == 0)
      && (s.block.status == BLOCK_STATUS_OPEN || s.block.status == BLOCK_STATUS_CLOSED)
  {
    hide Run, Deposits, RewardForBlock, Emitted, Credits, Log, Agreement, SessionQuotas;
    RunInv(rt, s0, calls);
    VaultIsExact(rt, s0, calls);
    TotalEmissions(Run(rt, s0, calls).config.totalBlocksMined);
  }

  /** The books of every reachable state: the miners' records, the treasury's share and the event
      stream add up to the counters, the split is exactly 1% to 99%, and each settlement announces the
      fixed submit fee. */
  lemma BooksBalance(rt: Runtime, s: State)
    requires Reachable(rt, s)
    ensures Sum(Earned(s.miners)) + s.config.totalTreasuryFeesDistributed == s.config.totalRewardsDistributed
    ensures Sum(Found(s.miners)) == s.config.totalBlocksMined == Total(Solved, s.events)
    ensures 100 * s.config.totalTreasuryFeesDistributed == s.config.totalRewardsDistributed
    ensures Total(GrossReward, s.events) == s.config.totalRewardsDistributed
    ensures Total(MinerShare, s.events) == Sum(Earned(s.miners))
    ensures Total(SubmitFee, s.events) == 10_000_000 * s.config.totalBlocksMined
    ensures forall k :: k in s.miners ==>
      WonBy(s.events, k) == Winnings(s.miners[k].validBlocksFound, s.miners[k].totalRewardsEarned)
  {
    hide Total, Sum, WonBy;
    ReachableInv(rt, s);
    forall k | k in s.miners
      ensures WonBy(s.events, k) == Winnings(s.miners[k].validBlocksFound, s.miners[k].totalRewardsEarned)
    {
      assert WonBy(s.events, k) == Recorded(s, k);
    }
  }

  /** The studio's closed form, summed over its eras at the block count of any reachable state, is the
      total that the program has recorded as distributed. */
  lemma StudioShowsDistributed(rt: Runtime, s: State)
    requires Reachable(rt, s)
    ensures EraProgress.ErasMined(15, s.config.totalBlocksMined) == s.config.totalRewardsDistributed
  {
    hide EraProgress.ErasMined, Emitted, Custody, Agreement, Phase, Credits, SessionQuotas, Log;
    ReachableInv(rt, s);
    EraProgress.ErasSumToEmitted(s.config.totalBlocksMined);
  }

  /** No command, of the program or of the world outside, changes the total number of tokens. */
  lemma SupplyConserved(rt: Runtime, s: State, t: State, call: Call)
    requires Inv(rt, s) && t == Next(rt, s, call)
    ensures Supply(t.tokens) == Supply(s.tokens)
  {
    hide Agreement, Phase, Credits, SessionQuotas, Log, Supply, Processed, Rotated, RewardForBlock, Step, Initialized,
      SubmittedByDelegate, Transfer;
    if Step(rt, s, call.clock, call.command).Committed? {
      StepCases(rt, s, t, call);
      match call.command
      case InitializeProtocol(a, args) => InitializeEffect(rt, s, t, call.clock, a, args);
      case RegisterMiner(_, _) =>
      case UpdateNickname(_, _) =>
      case SubmitSolution(miner, nonce, account) =>
        SupplyPaid(rt, s, t, Submission(call.clock, miner, nonce, account, miner));
      case AuthorizeSession(_, _, _, _) =>
      case SubmitWithSession(delegate, miner, nonce, account) =>
        var settled := DelegateEffect(rt, s, t, call.clock, delegate, miner, nonce, account);
        SupplyPaid(rt, s, settled, Submission(call.clock, miner, nonce, account, delegate));
      case RotateStaleBlock(caller) => RotationWrites(rt, s, t, call.clock, caller);
      case TransferTokens(from, to, amount) => TransferMoves(s.tokens, from, to, amount);
      case OpenTokenAccount(key, owner) => OpeningIsEmpty(s.tokens, key, owner);
      case SetLamports(key, balance) =>
    }
  }

  lemma OpeningIsEmpty(tokens: Tokens, key: Pubkey, owner: Pubkey)
    requires key !in tokens
    ensures Supply(tokens[key := TokenAccount(owner, 0)]) == Supply(tokens)
  {
    AmountsUpdate(tokens, key, TokenAccount(owner, 0));
    SumUpdate(Amounts(tokens), key, 0);
  }

  lemma SupplyPaid(rt: Runtime, s: State, t: State, sub: Submission)
    requires Inv(rt, s) && Processed(rt, s, sub) == Committed(t)
    ensures Supply(t.tokens) == Supply(s.tokens)
  {
    hide Processed, Settles, RewardForBlock, Supply, Paid, Agreement, Phase, Credits, SessionQuotas, Log, Emission;
    var x := ProcessedSettles(rt, s, t, sub);
    SettlementAmounts(rt, s, t, sub, x);
    PaymentEffect(s, sub, x.fee, x.payment);
    var _ := SettlementWrites(rt, s, t, sub, x);
  }

  lemma {:induction false} SupplyConservedByRuns(rt: Runtime, s0: State, calls: seq<Call>)
    requires Starts(s0)
    ensures Supply(Run(rt, s0, calls).tokens) == Supply(s0.tokens)
  {
    hide Inv, Next, Supply;
    if calls != [] {
      var before := calls[..|calls| - 1];
      SupplyConservedByRuns(rt, s0, before);
      RunInv(rt, s0, before);
      SupplyConserved(rt, Run(rt, s0, before), Run(rt, s0, calls), calls[|calls| - 1]);
    }
  }
}
