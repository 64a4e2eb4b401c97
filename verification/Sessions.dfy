/** Delegated mining sessions over whole runs. */
module Sessions {
  import opened Ints
  import opened Wrappers
  import opened Rewards
  import opened Ledger
  import opened Accounts
  import opened Protocol
  import opened Invariants
  import opened SettlementProof
  import opened Runs
  import opened Submissions

  /** The delegated settlements for `miner` since its last authorisation. */
  function DelegatedUses(rt: Runtime, s0: State, calls: seq<Call>, miner: Pubkey): nat {
    if calls == [] then 0
    else
      var before, call := calls[..|calls| - 1], calls[|calls| - 1];
      var uses, s := DelegatedUses(rt, s0, before, miner), Run(rt, s0, before);
      if Step(rt, s, call.clock, call.command).Rejected? then uses
      else if call.command.AuthorizeSession? && call.command.miner == miner then 0
      else if call.command.SubmitWithSession? && call.command.miner == miner then uses + 1
      else uses
  }

  /** Only an authorisation or a delegated submission of the miner touches the miner's session. */
  lemma SessionStep(rt: Runtime, s: State, t: State, call: Call, miner: Pubkey)
    requires Inv(rt, s) && Step(rt, s, call.clock, call.command) == Committed(t)
    ensures if call.command.AuthorizeSession? && call.command.miner == miner then
              miner in t.sessions && t.sessions[miner].submissionsUsed == 0
            else if call.command.SubmitWithSession? && call.command.miner == miner then
              && miner in s.sessions && miner in t.sessions
              && s.sessions[miner].active
              && t.sessions[miner].submissionsUsed == s.sessions[miner].submissionsUsed + 1
              && t.sessions[miner].maxSubmissions == s.sessions[miner].maxSubmissions
            else
              && (miner in t.sessions <==> miner in s.sessions)
              && (miner in s.sessions ==> t.sessions[miner] == s.sessions[miner])
  {
    hide Inv, Processed, Rotated, Initialized, Step, SubmittedByDelegate, Transfer;
    StepCases(rt, s, t, call);
    match call.command
    case InitializeProtocol(a, args) => InitializeEffect(rt, s, t, call.clock, a, args);
    case RegisterMiner(_, _) =>
    case UpdateNickname(_, _) =>
    case SubmitSolution(m, nonce, account) =>
      SettlementKeepsSessions(rt, s, t, Submission(call.clock, m, nonce, account, m));
    case AuthorizeSession(_, _, _, _) =>
    case SubmitWithSession(delegate, m, nonce, account) =>
      var settled := DelegateEffect(rt, s, t, call.clock, delegate, m, nonce, account);
      SettlementKeepsSessions(rt, s, settled, Submission(call.clock, m, nonce, account, delegate));
    case RotateStaleBlock(caller) => RotationWrites(rt, s, t, call.clock, caller);
    case TransferTokens(_, _, _) =>
    case OpenTokenAccount(_, _) =>
    case SetLamports(_, _) =>
  }

  lemma SettlementKeepsSessions(rt: Runtime, s: State, t: State, sub: Submission)
    requires Processed(rt, s, sub) == Committed(t)
    ensures t.sessions == s.sessions
  {
    hide Processed, Settles;
    var x := ProcessedSettles(rt, s, t, sub);
    var _ := SettlementWrites(rt, s, t, sub, x);
  }

  /** Over every run a session counts exactly the delegated settlements since its authorisation, is
      active exactly while its quota is not used up, and so never lets more than its quota through. */
  lemma {:induction false} SessionQuotaHolds(rt: Runtime, s0: State, calls: seq<Call>, miner: Pubkey)
    requires Starts(s0)
    ensures var s, uses := Run(rt, s0, calls), DelegatedUses(rt, s0, calls, miner);
      if miner in s.sessions then
        var session := s.sessions[miner];
        && session.submissionsUsed == uses
        && (session.active <==> session.maxSubmissions == 0 || uses < session.maxSubmissions)
        && (session.maxSubmissions > 0 ==> uses <= session.maxSubmissions)
      else uses == 0
  {
    hide Inv, Step;
    SessionCounts(rt, s0, calls, miner);
    RunInv(rt, s0, calls);
    QuotasOf(rt, Run(rt, s0, calls));
  }

  lemma QuotasOf(rt: Runtime, s: State)
    requires Inv(rt, s)
    ensures SessionQuotas(s)
  {}

  lemma {:induction false} SessionCounts(rt: Runtime, s0: State, calls: seq<Call>, miner: Pubkey)
    requires Starts(s0)
    ensures var s := Run(rt, s0, calls);
      DelegatedUses(rt, s0, calls, miner) == if miner in s.sessions then s.sessions[miner].submissionsUsed else 0
  {
    hide Inv, Step;
    if calls != [] {
      var before, call := calls[..|calls| - 1], calls[|calls| - 1];
      var s := Run(rt, s0, before);
      SessionCounts(rt, s0, before, miner);
      RunInv(rt, s0, before);
      if Step(rt, s, call.clock, call.command).Committed? {
        SessionStep(rt, s, Run(rt, s0, calls), call, miner);
      }
    }
  }

  /** A delegate's submission commits in a reachable state exactly when the delegate signed, holds an
      active unexpired session and the verdict on the submission for the canonical miner is favourable:
      the stored-miner constraint, the quota check and the use counter never decide. */
  lemma DelegateCommitsIff(rt: Runtime, s: State, clock: Clock, delegate: Pubkey, miner: Pubkey, nonce: u64,
                           destination: Pubkey)
    requires Reachable(rt, s)
    ensures SubmittedByDelegate(rt, s, clock, delegate, miner, nonce, destination).Committed? <==>
      && CanSign(rt, delegate)
      && miner in s.sessions && s.sessions[miner].delegate == delegate && s.sessions[miner].active
      && (s.sessions[miner].expiresAt > 0 ==> clock.now <= s.sessions[miner].expiresAt)
      && Verdict(rt, s, Submission(clock, miner, nonce, destination, delegate)).None?
  {
    hide Processed, SubmissionAccountsError, InSubmitWindow, CanOpenNext, ProofHash, Credits, Log, Agreement, Phase,
      Custody, Emitted;
    ReachableInv(rt, s);
    var sub := Submission(clock, miner, nonce, destination, delegate);
    ProcessedByVerdict(rt, s, sub);
  }

  /** The verdict on a delegated submission in a reachable state: the session's account constraints first,
      then the submission's, then the session's expiry, then the verdict on the submission. */
  function DelegateVerdict(rt: Runtime, s: State, delegate: Pubkey, sub: Submission): Option<Error> {
    if !CanSign(rt, delegate) then Some(MissingSignature)
    else if sub.miner !in s.sessions then Some(AccountNotInitialized)
    else if s.sessions[sub.miner].delegate != delegate then Some(InvalidSessionDelegate)
    else if !s.sessions[sub.miner].active then Some(SessionInactive)
    else if SubmissionAccountsError(s, sub).Some? then SubmissionAccountsError(s, sub)
    else if 0 < s.sessions[sub.miner].expiresAt < sub.clock.now then Some(SessionExpired)
    else Verdict(rt, s, sub)
  }

  lemma DelegatedByVerdict(rt: Runtime, s: State, clock: Clock, delegate: Pubkey, miner: Pubkey, nonce: u64,
                           destination: Pubkey)
    requires Reachable(rt, s)
    ensures var outcome := SubmittedByDelegate(rt, s, clock, delegate, miner, nonce, destination);
      match DelegateVerdict(rt, s, delegate, Submission(clock, miner, nonce, destination, delegate))
      case Some(error) => outcome == Rejected(error)
      case None => outcome.Committed?
  {
    hide Processed, SubmissionAccountsError, InSubmitWindow, CanOpenNext, ProofHash, Credits, Log, Agreement, Phase,
      Custody, Emitted;
    ReachableInv(rt, s);
    ProcessedByVerdict(rt, s, Submission(clock, miner, nonce, destination, delegate));
  }

  // ----- authorisation

  /** A miner may authorise any key but the default one, for ever or up to a time in the future. */
  lemma AuthorizeCommitsIff(rt: Runtime, s: State, clock: Clock, miner: Pubkey, delegate: Pubkey, expiresAt: i64,
                            max: u64)
    ensures Step(rt, s, clock, AuthorizeSession(miner, delegate, expiresAt, max)).Committed? <==>
      CanSign(rt, miner) && delegate != DEFAULT_KEY && (expiresAt == 0 || expiresAt > clock.now)
  {}

  /** A refused authorisation names the first condition that is violated. */
  lemma AuthorizeRejectsFirst(rt: Runtime, s: State, clock: Clock, miner: Pubkey, delegate: Pubkey, expiresAt: i64,
                              max: u64)
    requires Step(rt, s, clock, AuthorizeSession(miner, delegate, expiresAt, max)).Rejected?
    ensures match Step(rt, s, clock, AuthorizeSession(miner, delegate, expiresAt, max)).error
            case MissingSignature => !CanSign(rt, miner)
            case InvalidSessionDelegate => CanSign(rt, miner) && delegate == DEFAULT_KEY
            case InvalidSessionExpiry =>
              CanSign(rt, miner) && delegate != DEFAULT_KEY && expiresAt != 0 && expiresAt <= clock.now
            case _ => false
  {}

  /** A new session replaces the miner's last one, unused and dated now; it admits its delegate and nobody
      else, for ever if it has no expiry and otherwise up to and including that second. */
  lemma FreshSessionAdmits(rt: Runtime, s: State, t: State, clock: Clock, miner: Pubkey, delegate: Pubkey,
                           expiresAt: i64, max: u64)
    requires Step(rt, s, clock, AuthorizeSession(miner, delegate, expiresAt, max)) == Committed(t)
    ensures t == s.(sessions := t.sessions) && miner in t.sessions
    ensures forall k :: k != miner ==> (k in t.sessions <==> k in s.sessions)
    ensures forall k :: k != miner && k in s.sessions ==> t.sessions[k] == s.sessions[k]
    ensures var session := t.sessions[miner];
      && session.createdAt == clock.now && session.lastUsedAt == 0 && session.submissionsUsed == 0
      && session.expiresAt == expiresAt && session.maxSubmissions == max
    ensures forall key: Pubkey :: SessionError(t, key, miner).None? <==> key == delegate
    ensures forall later: Timestamp ::
      SessionUseError(t.sessions[miner], later).None? <==> expiresAt == 0 || later <= expiresAt
  {}

  /** So a delegate that has just been authorised in a reachable state can settle whatever the miner could
      settle at the delegate's expense, until the session expires. */
  lemma FreshDelegateCommitsIff(rt: Runtime, s: State, t: State, clock: Clock, miner: Pubkey, delegate: Pubkey,
                                expiresAt: i64, max: u64, later: Clock, nonce: u64, destination: Pubkey)
    requires Reachable(rt, s)
    requires Step(rt, s, clock, AuthorizeSession(miner, delegate, expiresAt, max)) == Committed(t)
    ensures Step(rt, t, later, SubmitWithSession(delegate, miner, nonce, destination)).Committed? <==>
      && CanSign(rt, delegate) && (expiresAt == 0 || later.now <= expiresAt)
      && Verdict(rt, t, Submission(later, miner, nonce, destination, delegate)).None?
  {
    hide Verdict, SubmittedByDelegate;
    assert t == Next(rt, s, Call(clock, AuthorizeSession(miner, delegate, expiresAt, max)));
    ReachableNext(rt, s, Call(clock, AuthorizeSession(miner, delegate, expiresAt, max)));
    DelegateCommitsIff(rt, t, later, delegate, miner, nonce, destination);
  }

  /** A delegated settlement spends one use, dates it, and closes the session with the last use. */
  lemma UseWrites(rt: Runtime, s: State, t: State, clock: Clock, delegate: Pubkey, miner: Pubkey, nonce: u64,
                  destination: Pubkey)
    requires Step(rt, s, clock, SubmitWithSession(delegate, miner, nonce, destination)) == Committed(t)
    ensures miner in s.sessions && t.sessions.Keys == s.sessions.Keys
    ensures forall k :: k in s.sessions && k != miner ==> t.sessions[k] == s.sessions[k]
    ensures var before, after := s.sessions[miner], t.sessions[miner];
      && after.submissionsUsed == before.submissionsUsed + 1 && after.lastUsedAt == clock.now
      && (after.active <==> before.maxSubmissions == 0 || before.submissionsUsed + 1 < before.maxSubmissions)
      && after == before.(submissionsUsed := after.submissionsUsed, lastUsedAt := clock.now, active := after.active)
  {
    hide Processed, Step, SubmittedByDelegate;
    var call := Call(clock, SubmitWithSession(delegate, miner, nonce, destination));
    StepCases(rt, s, t, call);
    var settled := DelegateEffect(rt, s, t, clock, delegate, miner, nonce, destination);
    SettlementKeepsSessions(rt, s, settled, Submission(clock, miner, nonce, destination, delegate));
  }
}
