/** The submit fees that actually change hands over a run. */
module Fees {
  import opened Wrappers
  import opened Ledger
  import opened Accounts
  import opened Protocol
  import opened Invariants
  import opened Runs
  import opened Submissions

  /** Who pays for a submission. */
  function PayerOf(command: Command): Option<Pubkey> {
    match command
    case SubmitSolution(miner, _, _) => Some(miner)
    case SubmitWithSession(delegate, _, _, _) => Some(delegate)
    case _ => None
  }

  predicate Settling(rt: Runtime, s: State, call: Call) {
    PayerOf(call.command).Some? && Step(rt, s, call.clock, call.command).Committed?
  }

  /** What the payer of a call loses by it. */
  function FeePaid(rt: Runtime, s: State, call: Call): int {
    if Settling(rt, s, call) then
      var payer := PayerOf(call.command).value;
      Balance(s.lamports, payer) - Balance(Next(rt, s, call).lamports, payer)
    else 0
  }

  /** What the treasury wallet gains by it. */
  function FeeReceived(rt: Runtime, s: State, call: Call): int {
    if Settling(rt, s, call) then
      Balance(Next(rt, s, call).lamports, s.config.treasuryAuthority) - Balance(s.lamports, s.config.treasuryAuthority)
    else 0
  }

  /** A settlement that the treasury wallet pays to itself. */
  predicate SelfPaid(rt: Runtime, s: State, call: Call) {
    Settling(rt, s, call) && PayerOf(call.command).value == s.config.treasuryAuthority
  }

  function FeesPaid(rt: Runtime, s0: State, calls: seq<Call>): int {
    if calls == [] then 0
    else
      var before := calls[..|calls| - 1];
      FeesPaid(rt, s0, before) + FeePaid(rt, Run(rt, s0, before), calls[|calls| - 1])
  }

  function FeesReceived(rt: Runtime, s0: State, calls: seq<Call>): int {
    if calls == [] then 0
    else
      var before := calls[..|calls| - 1];
      FeesReceived(rt, s0, before) + FeeReceived(rt, Run(rt, s0, before), calls[|calls| - 1])
  }

  function SelfPaidSettlements(rt: Runtime, s0: State, calls: seq<Call>): nat {
    if calls == [] then 0
    else
      var before := calls[..|calls| - 1];
      SelfPaidSettlements(rt, s0, before) + if SelfPaid(rt, Run(rt, s0, before), calls[|calls| - 1]) then 1 else 0
  }

  /** A settlement counts one block and moves the fee unless payer and treasury are one; nothing else
      counts a block. */
  lemma FeeStep(rt: Runtime, s: State, t: State, call: Call)
    requires Inv(rt, s) && t == Next(rt, s, call)
    ensures t.config.totalBlocksMined == s.config.totalBlocksMined + if Settling(rt, s, call) then 1 else 0
    ensures FeePaid(rt, s, call) == FeeReceived(rt, s, call)
         == if Settling(rt, s, call) && !SelfPaid(rt, s, call) then 10_000_000 else 0
  {
    hide Inv, Processed, Rotated, Step, Initialized, SubmittedByDelegate, Transfer, UsedOnce, Balance;
    if Step(rt, s, call.clock, call.command).Committed? {
      StepCases(rt, s, t, call);
      match call.command
      case InitializeProtocol(a, args) =>
        InitializeEffect(rt, s, t, call.clock, a, args);
        NothingMined(rt, s);
      case SubmitSolution(miner, nonce, account) =>
        SettlementFee(rt, s, t, Submission(call.clock, miner, nonce, account, miner));
      case SubmitWithSession(delegate, miner, nonce, account) =>
        var settled := DelegateEffect(rt, s, t, call.clock, delegate, miner, nonce, account);
        SettlementFee(rt, s, settled, Submission(call.clock, miner, nonce, account, delegate));
      case RotateStaleBlock(caller) => RotationWrites(rt, s, t, call.clock, caller);
      case _ =>
    }
  }

  lemma SettlementFee(rt: Runtime, s: State, t: State, sub: Submission)
    requires Inv(rt, s) && Processed(rt, s, sub) == Committed(t)
    ensures t.config.totalBlocksMined == s.config.totalBlocksMined + 1
    ensures var treasury := s.config.treasuryAuthority;
      Balance(s.lamports, sub.payer) - Balance(t.lamports, sub.payer)
      == Balance(t.lamports, treasury) - Balance(s.lamports, treasury)
      == if sub.payer == treasury then 0 else 10_000_000
  {
    hide Inv, Processed, Sum, Balance;
    SettlementLamports(rt, s, t, sub);
  }

  lemma NothingMined(rt: Runtime, s: State)
    requires Inv(rt, s) && !s.initialized
    ensures s.config.totalBlocksMined == 0
  {}

  /** Over every run the lamports that payers lose to submit fees are the lamports that the treasury wallet
      gains: 10,000,000 for every settled block that the treasury did not pay for itself. */
  lemma {:induction false} FeesMove(rt: Runtime, s0: State, calls: seq<Call>)
    requires Starts(s0)
    ensures var mined, self := Run(rt, s0, calls).config.totalBlocksMined, SelfPaidSettlements(rt, s0, calls);
      && self <= mined
      && FeesPaid(rt, s0, calls) == FeesReceived(rt, s0, calls) == 10_000_000 * (mined - self)
  {
    hide Inv, Next, FeePaid, FeeReceived, Settling, SelfPaid;
    if calls != [] {
      var before, call := calls[..|calls| - 1], calls[|calls| - 1];
      FeesMove(rt, s0, before);
      RunInv(rt, s0, before);
      FeeStep(rt, Run(rt, s0, before), Run(rt, s0, calls), call);
      SelfPaidSettles(rt, Run(rt, s0, before), call);
    }
  }

  lemma SelfPaidSettles(rt: Runtime, s: State, call: Call)
    ensures SelfPaid(rt, s, call) ==> Settling(rt, s, call)
  {}

  /** The treasury wallet earns the fixed fee on every settled block exactly when it settled none itself. */
  lemma FeesCompleteIff(rt: Runtime, s0: State, calls: seq<Call>)
    requires Starts(s0)
    ensures FeesReceived(rt, s0, calls) == 10_000_000 * Run(rt, s0, calls).config.totalBlocksMined
       <==> SelfPaidSettlements(rt, s0, calls) == 0
  {
    hide FeesPaid, FeesReceived, SelfPaidSettlements, Run;
    FeesMove(rt, s0, calls);
  }
}
