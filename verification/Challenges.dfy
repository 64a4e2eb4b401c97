/** Where challenges come from: unless the hash collides on the run's own inputs, no challenge is ever
    opened twice and none equals the hash of a proof. */
module Challenges {
  import opened Ints
  import opened Bytes
  import opened Ledger
  import opened Accounts
  import opened Preimages
  import opened Protocol
  import opened Rewards
  import opened EventLog
  import opened Invariants
  import opened SettlementProof
  import opened Runs
  import Retarget

  /** The string behind the challenge that a committed call opens a block with. */
  function OpenedBy(rt: Runtime, s: State, call: Call): set<seq<byte>> {
    if Step(rt, s, call.clock, call.command).Rejected? then {}
    else
      match call.command
      case InitializeProtocol(a, _) => {GenesisPreimage(a.admin, a.blocMint, call.clock.slot, call.clock.now)}
      case SubmitSolution(miner, nonce, account) =>
        SettlementOpens(rt, s, Submission(call.clock, miner, nonce, account, miner))
      case SubmitWithSession(delegate, miner, nonce, account) =>
        SettlementOpens(rt, s, Submission(call.clock, miner, nonce, account, delegate))
      case RotateStaleBlock(caller) =>
        if FitsU64(s.block.blockNumber + 1) then
          {RotatedChallengePreimage(s.block, call.clock, caller, s.block.blockNumber + 1)}
        else {}
      case _ => {}
  }

  function SettlementOpens(rt: Runtime, s: State, sub: Submission): set<seq<byte>> {
    if FitsU64(s.block.blockNumber + 1) then {NextChallengePreimage(rt, s, sub, s.block.blockNumber + 1)} else {}
  }

  /** The submission passes every check that comes before its proof is hashed. */
  predicate ReachesHash(s: State, sub: Submission) {
    && SubmissionAccountsError(s, sub).None?
    && !s.config.paused && s.block.status == BLOCK_STATUS_OPEN
    && !(s.block.expiresAt > 0 && sub.clock.now > s.block.expiresAt)
    && s.block.blockReward == RewardForBlock(s.config.totalBlocksMined)
  }

  /** The proof string that a call hashes, if it gets that far, committed or not. */
  function ProvedBy(rt: Runtime, s: State, call: Call): set<seq<byte>> {
    match call.command
    case SubmitSolution(miner, nonce, account) =>
      if CanSign(rt, miner) && ReachesHash(s, Submission(call.clock, miner, nonce, account, miner)) then
        {ProofPreimage(s.block.challenge, miner, nonce)}
      else {}
    case SubmitWithSession(delegate, miner, nonce, account) =>
      if CanSign(rt, delegate) && SessionError(s, delegate, miner).None?
         && SessionUseError(s.sessions[miner], call.clock.now).None?
         && ReachesHash(s, Submission(call.clock, miner, nonce, account, delegate)) then
        {ProofPreimage(s.block.challenge, miner, nonce)}
      else {}
    case _ => {}
  }

  /** The challenge strings of a run. */
  function Opened(rt: Runtime, s0: State, calls: seq<Call>): set<seq<byte>> {
    if calls == [] then {}
    else
      var before := calls[..|calls| - 1];
      Opened(rt, s0, before) + OpenedBy(rt, Run(rt, s0, before), calls[|calls| - 1])
  }

  /** The proof strings of a run. */
  function Proved(rt: Runtime, s0: State, calls: seq<Call>): set<seq<byte>> {
    if calls == [] then {}
    else
      var before := calls[..|calls| - 1];
      Proved(rt, s0, before) + ProvedBy(rt, Run(rt, s0, before), calls[|calls| - 1])
  }

  ghost predicate CollisionFree(rt: Runtime, inputs: set<seq<byte>>) {
    forall p, q :: p in inputs && q in inputs && rt.sha(p) == rt.sha(q) ==> p == q
  }

  /** `p` is a preimage of the challenge of an opened block and carries its number. */
  predicate Opens(rt: Runtime, p: seq<byte>, e: Event)
    requires e.BlockOpened?
  {
    |p| != 72 && rt.sha(p) == e.challenge && OpenedNumber(p) == e.blockNumber
  }

  predicate Proves(rt: Runtime, p: seq<byte>, e: Event)
    requires e.BlockSolved?
  {
    |p| == 72 && rt.sha(p) == e.hash
  }

  /** Every opened challenge has its preimage among `openings`, every solved hash among `proved`. */
  ghost predicate Sourced(rt: Runtime, events: seq<Event>, openings: set<seq<byte>>, proved: set<seq<byte>>) {
    && (forall e :: e in events && e.BlockOpened? ==> exists p :: p in openings && Opens(rt, p, e))
    && (forall e :: e in events && e.BlockSolved? ==> exists p :: p in proved && Proves(rt, p, e))
  }

  lemma SourcedExtends(rt: Runtime, events: seq<Event>, more: seq<Event>, openings: set<seq<byte>>,
                       proved: set<seq<byte>>, opening: set<seq<byte>>, proving: set<seq<byte>>)
    requires Sourced(rt, events, openings, proved) && Sourced(rt, more, opening, proving)
    ensures Sourced(rt, events + more, openings + opening, proved + proving)
  {
    forall e | e in events + more && e.BlockOpened? ensures exists p :: p in openings + opening && Opens(rt, p, e) {
      if e in events {
        var p :| p in openings && Opens(rt, p, e);
        assert p in openings + opening;
      } else {
        var p :| p in opening && Opens(rt, p, e);
        assert p in openings + opening;
      }
    }
    forall e | e in events + more && e.BlockSolved? ensures exists p :: p in proved + proving && Proves(rt, p, e) {
      if e in events {
        var p :| p in proved && Proves(rt, p, e);
        assert p in proved + proving;
      } else {
        var p :| p in proving && Proves(rt, p, e);
        assert p in proved + proving;
      }
    }
  }

  /** The events of a settlement: the solved block, and at most one opening, of the next number and with
      the challenge hashed for it. */
  lemma SettlementEvents(rt: Runtime, s: State, t: State, sub: Submission) returns (solving: Event, rest: seq<Event>)
    requires Inv(rt, s) && Processed(rt, s, sub) == Committed(t)
    ensures t.events == s.events + ([solving] + rest) && FitsU64(s.block.blockNumber + 1)
    ensures solving.BlockSolved? && solving.hash == ProofHash(rt, s, sub) && ReachesHash(s, sub)
    ensures forall e :: e in rest ==> !e.BlockSolved?
    ensures var next := s.block.blockNumber + 1;
      forall e :: e in rest && e.BlockOpened? ==>
        e.blockNumber == next && e.challenge == rt.sha(NextChallengePreimage(rt, s, sub, next))
  {
    hide Inv, Processed, Settles, ProofHash, NextChallengePreimage, TargetBytes, Retarget.NextTarget, Retarget.BitsOf,
      RewardForBlock, SubmissionAccountsError;
    var x := ProcessedSettles(rt, s, t, sub);
    rest := SettlementWrites(rt, s, t, sub, x);
    SettlementConfig(rt, s, t, sub, x, RetargetedValue(s.config, ObservedSeconds(sub.clock.now, s.block.openedAt)));
    SettlementChecks(rt, s, t, sub, x);
    solving := Solving(rt, s, sub, x.fee);
    AccountsChecked(rt, s, t, sub, x);
  }

  lemma AccountsChecked(rt: Runtime, s: State, t: State, sub: Submission, x: Settlement)
    requires Settles(rt, s, t, sub, x)
    ensures SubmissionAccountsError(s, sub).None?
  {
    hide SubmissionError, Settled, SettledInto;
  }

  lemma SolvingSourced(rt: Runtime, s: State, sub: Submission, solving: Event)
    requires solving.BlockSolved? && solving.hash == ProofHash(rt, s, sub)
    ensures Sourced(rt, [solving], {}, {ProofPreimage(s.block.challenge, sub.miner, sub.nonce)})
  {
    hide ProofPreimage;
    assert Proves(rt, ProofPreimage(s.block.challenge, sub.miner, sub.nonce), solving);
  }

  lemma OpeningsSourced(rt: Runtime, s: State, sub: Submission, next: u64, rest: seq<Event>)
    requires forall e :: e in rest ==> !e.BlockSolved?
    requires forall e :: e in rest && e.BlockOpened? ==>
      e.blockNumber == next && e.challenge == rt.sha(NextChallengePreimage(rt, s, sub, next))
    ensures Sourced(rt, rest, {NextChallengePreimage(rt, s, sub, next)}, {})
  {
    hide NextPreimage, ProofHash, OpenedNumber;
    var q := NextChallengePreimage(rt, s, sub, next);
    NextOpens(ProofHash(rt, s, sub), s.block.challenge, sub.miner, sub.nonce, next, sub.clock.slot, sub.clock.now);
    forall e | e in rest && e.BlockOpened? ensures q in {q} && Opens(rt, q, e) {}
  }

  lemma SettlementSourced(rt: Runtime, s: State, t: State, sub: Submission) returns (more: seq<Event>)
    requires Inv(rt, s) && Processed(rt, s, sub) == Committed(t)
    ensures t.events == s.events + more && ReachesHash(s, sub)
    ensures Sourced(rt, more, SettlementOpens(rt, s, sub), {ProofPreimage(s.block.challenge, sub.miner, sub.nonce)})
  {
    hide Inv, Processed, Sourced, ProofPreimage, NextChallengePreimage, ProofHash, ReachesHash;
    var solving, rest := SettlementEvents(rt, s, t, sub);
    var p := ProofPreimage(s.block.challenge, sub.miner, sub.nonce);
    var q := NextChallengePreimage(rt, s, sub, s.block.blockNumber + 1);
    SolvingSourced(rt, s, sub, solving);
    OpeningsSourced(rt, s, sub, s.block.blockNumber + 1, rest);
    more := [solving] + rest;
    SourcedExtends(rt, [solving], rest, {}, {p}, {q}, {});
    assert {} + {q} == {q} && {p} + {} == {p};
  }

  lemma GenesisSourced(rt: Runtime, s: State, t: State, clock: Clock, a: InitializeAccounts, args: InitializeArgs)
    returns (more: seq<Event>)
    requires Initialized(rt, s, clock, a, args) == Committed(t)
    ensures t.events == s.events + more
    ensures Sourced(rt, more, {GenesisPreimage(a.admin, a.blocMint, clock.slot, clock.now)}, {})
  {
    hide Initialized, GenesisPreimage;
    InitializeEffect(rt, s, t, clock, a, args);
    more := [t.events[|s.events|]];
    var p := GenesisPreimage(a.admin, a.blocMint, clock.slot, clock.now);
    GenesisOpens(a.admin, a.blocMint, clock.slot, clock.now);
    assert Opens(rt, p, more[0]);
  }

  lemma RotationSourced(rt: Runtime, s: State, t: State, clock: Clock, caller: Pubkey) returns (more: seq<Event>)
    requires Rotated(rt, s, clock, caller) == Committed(t)
    ensures t.events == s.events + more && FitsU64(s.block.blockNumber + 1)
    ensures Sourced(rt, more, {RotatedChallengePreimage(s.block, clock, caller, s.block.blockNumber + 1)}, {})
  {
    hide Rotated, RotatePreimage, OpenedNumber, TargetBytes;
    RotationWrites(rt, s, t, clock, caller);
    more := t.events[|s.events|..];
    var p := RotatedChallengePreimage(s.block, clock, caller, s.block.blockNumber + 1);
    RotateOpens(s.block.challenge, caller, s.block.blockNumber, s.block.blockNumber + 1, clock.slot, clock.now);
    assert Opens(rt, p, more[2]);
    assert more == [more[0], more[1], more[2]];
  }

  /** One call adds only events whose hashes it computed. */
  lemma StepSourced(rt: Runtime, s: State, t: State, call: Call) returns (more: seq<Event>)
    requires Inv(rt, s) && t == Next(rt, s, call)
    ensures t.events == s.events + more && Sourced(rt, more, OpenedBy(rt, s, call), ProvedBy(rt, s, call))
  {
    hide Inv, Processed, Rotated, Initialized, SubmittedByDelegate, Transfer, Step, SubmissionAccountsError, Sourced,
      SessionError, SessionUseError, SettlementOpens, ReachesHash, GenesisPreimage, ProofPreimage,
      RotatedChallengePreimage, UsedOnce;
    more := [];
    if Step(rt, s, call.clock, call.command).Committed? {
      StepCases(rt, s, t, call);
      match call.command
      case InitializeProtocol(a, args) => more := GenesisSourced(rt, s, t, call.clock, a, args);
      case SubmitSolution(miner, nonce, account) =>
        more := SettlementSourced(rt, s, t, Submission(call.clock, miner, nonce, account, miner));
      case SubmitWithSession(delegate, miner, nonce, account) =>
        var settled := DelegateEffect(rt, s, t, call.clock, delegate, miner, nonce, account);
        more := SettlementSourced(rt, s, settled, Submission(call.clock, miner, nonce, account, delegate));
      case RotateStaleBlock(caller) => more := RotationSourced(rt, s, t, call.clock, caller);
      case _ =>
    }
    if more == [] { NothingSourced(rt, OpenedBy(rt, s, call), ProvedBy(rt, s, call)); }
  }

  lemma NothingSourced(rt: Runtime, openings: set<seq<byte>>, proved: set<seq<byte>>)
    ensures Sourced(rt, [], openings, proved)
  {}

  lemma GenesisOpens(admin: Pubkey, mint: Pubkey, slot: u64, now: Timestamp)
    ensures OpenedNumber(GenesisPreimage(admin, mint, slot, now)) == 0
  {}

  lemma {:induction false} RunSourced(rt: Runtime, s0: State, calls: seq<Call>)
    requires Starts(s0)
    ensures Sourced(rt, Run(rt, s0, calls).events, Opened(rt, s0, calls), Proved(rt, s0, calls))
  {
    hide Inv, Next, OpenedBy, ProvedBy, Sourced;
    if calls == [] {
      NothingSourced(rt, {}, {});
    } else {
      var before, call := calls[..|calls| - 1], calls[|calls| - 1];
      var s, t := Run(rt, s0, before), Run(rt, s0, calls);
      RunSourced(rt, s0, before);
      RunInv(rt, s0, before);
      var more := StepSourced(rt, s, t, call);
      SourcedExtends(rt, s.events, more, Opened(rt, s0, before), Proved(rt, s0, before),
                     OpenedBy(rt, s, call), ProvedBy(rt, s, call));
    }
  }

  /** If the hash does not collide on the challenge strings of the run's committed calls, the challenges of
      its opened blocks are pairwise distinct. */
  lemma ChallengesDistinct(rt: Runtime, s0: State, calls: seq<Call>)
    requires Starts(s0) && CollisionFree(rt, Opened(rt, s0, calls))
    ensures var events := Run(rt, s0, calls).events;
      forall i, j :: 0 <= i < j < |events| && events[i].BlockOpened? && events[j].BlockOpened?
        ==> events[i].challenge != events[j].challenge
  {
    hide Run, Opened, Proved;
    var s, inputs := Run(rt, s0, calls), Opened(rt, s0, calls);
    NumbersAscend(rt, s0, calls);
    RunSourced(rt, s0, calls);
    forall i, j | 0 <= i < j < |s.events| && s.events[i].BlockOpened? && s.events[j].BlockOpened?
      ensures s.events[i].challenge != s.events[j].challenge
    {
      var p :| p in inputs && Opens(rt, p, s.events[i]);
      var q :| q in inputs && Opens(rt, q, s.events[j]);
      assert p != q;
    }
  }

  lemma NumbersAscend(rt: Runtime, s0: State, calls: seq<Call>)
    requires Starts(s0)
    ensures OpenedAscend(Run(rt, s0, calls).events, Run(rt, s0, calls).config.currentBlockNumber)
  {
    RunInv(rt, s0, calls);
  }

  /** If it does not collide on those and the proof strings that the run has hashed either, no opened
      challenge equals the hash of any of these proofs, in particular none that of a solved block. */
  lemma ChallengesAreNotProofs(rt: Runtime, s0: State, calls: seq<Call>)
    requires Starts(s0) && CollisionFree(rt, Opened(rt, s0, calls) + Proved(rt, s0, calls))
    ensures var events := Run(rt, s0, calls).events;
      forall e, p :: e in events && e.BlockOpened? && p in Proved(rt, s0, calls) ==> e.challenge != rt.sha(p)
    ensures var events := Run(rt, s0, calls).events;
      forall e, f :: e in events && e.BlockOpened? && f in events && f.BlockSolved? ==> e.challenge != f.hash
  {
    hide Run, Opened, Proved;
    var events, openings, proved := Run(rt, s0, calls).events, Opened(rt, s0, calls), Proved(rt, s0, calls);
    RunSourced(rt, s0, calls);
    ProofsAreShort(rt, s0, calls);
    forall e, p | e in events && e.BlockOpened? && p in proved ensures e.challenge != rt.sha(p) {
      var q :| q in openings && Opens(rt, q, e);
      assert p in openings + proved && q in openings + proved && |p| != |q|;
    }
    forall e, f | e in events && e.BlockOpened? && f in events && f.BlockSolved? ensures e.challenge != f.hash {
      var p :| p in proved && Proves(rt, p, f);
    }
  }

  lemma {:induction false} ProofsAreShort(rt: Runtime, s0: State, calls: seq<Call>)
    ensures forall p :: p in Proved(rt, s0, calls) ==> |p| == 72
  {
    hide Run, ReachesHash, SessionError, SessionUseError, ProofPreimage;
    if calls != [] { ProofsAreShort(rt, s0, calls[..|calls| - 1]); }
  }
}
