/** Soundness, completeness and termination of the multi-threaded search, for every thread count and
    every schedule. */
module CpuSearchProof {
  import opened Ints
  import opened Powers
  import opened Bytes
  import opened Wrappers
  import opened Engine
  import opened Sums
  import opened CpuSearch

  lemma InitInv(p: Search)
    requires WellFormed(p)
    ensures Inv(p, Init(p))
  {
    hide NonceOf, WorkerAttempts, Solves;
    AllUnsent(Init(p).workers);
  }

  lemma {:induction false} AllUnsent(workers: seq<Worker>)
    requires forall w :: w in workers ==> !Sent(w)
    ensures Total(Unsent, workers) == |workers|
  {
    if workers != [] { AllUnsent(workers[..|workers| - 1]); }
  }

  /** One loop pass: either a solution, or one more failed attempt. */
  lemma TriedOk(p: Search, i: nat, w: Worker)
    requires WellFormed(p) && i < p.threads && w.Hashing? && WorkerOk(p, i, w)
    ensures WorkerOk(p, i, Tried(p, w))
  {
    hide SolutionHash, NonceOf, WorkerAttempts;
    LexIsNumeric(SolutionHash(p.sha, p.input, w.nonce), p.input.target);
    WorkerAdvances(p, i, w.attempts);
  }

  /** A stop stored by a worker stays justified when another one moves. */
  lemma SolvedElsewhere(p: Search, s: State, i: nat, w: Worker)
    requires WellFormed(p) && Inv(p, s) && i < p.threads && !Sent(s.workers[i])
    ensures s.stop && s.collector.Receiving? ==> exists k :: 0 <= k < p.threads && Moved(s, i, w).workers[k].Solved?
  {
    hide WorkerOk, FoundBy, InVain;
    if s.stop && s.collector.Receiving? {
      var k :| 0 <= k < p.threads && s.workers[k].Solved?;
      assert Moved(s, i, w).workers[k].Solved?;
    }
  }

  /** A worker's move that sends nothing and stores nothing. */
  lemma LocalMove(p: Search, s: State, i: nat, w: Worker)
    requires WellFormed(p) && Inv(p, s) && i < p.threads && WorkerOk(p, i, w)
    requires !Sent(s.workers[i]) && !Sent(w) && (SawStop(w) ==> s.stop)
    ensures Inv(p, Moved(s, i, w))
  {
    hide WorkerOk, FoundBy, InVain;
    TotalUpdate(Unsent, s.workers, i, w);
    SolvedElsewhere(p, s, i, w);
  }

  lemma SendPreserves(p: Search, s: State, i: nat, w: Worker, message: Message)
    requires WellFormed(p) && Inv(p, s) && i < p.threads && WorkerOk(p, i, w)
    requires !Sent(s.workers[i]) && Sent(w) && !w.Solved? && (SawStop(w) ==> s.stop)
    requires w.Storing? ==> message == Found(w.found)
    requires message.Found? ==> FoundBy(p, i, message.solution)
    ensures Inv(p, Moved(s, i, w).(channel := s.channel + [Envelope(i, message)]))
  {
    hide WorkerOk, FoundBy, InVain;
    TotalUpdate(Unsent, s.workers, i, w);
    SolvedElsewhere(p, s, i, w);
  }

  lemma StorePreserves(p: Search, s: State, i: nat)
    requires WellFormed(p) && Inv(p, s) && i < p.threads && s.workers[i].Storing?
    ensures Inv(p, Moved(s, i, Solved(s.workers[i].found)).(stop := true))
  {
    hide FoundBy, InVain;
    var w := Solved(s.workers[i].found);
    TotalUpdate(Unsent, s.workers, i, w);
    assert WorkerOk(p, i, s.workers[i]) && WorkerOk(p, i, w);
    assert s.workers[i := w][i].Solved?;
  }

  lemma ReceivePreserves(p: Search, s: State)
    requires WellFormed(p) && Inv(p, s) && s.collector.Receiving? && s.collector.pending > 0 && s.channel != []
    ensures Inv(p, Collected(s.(channel := s.channel[1..]), s.channel[0].message))
  {
    hide WorkerOk, FoundBy, InVain;
    assert s.channel[0] in s.channel;
    assert forall e :: e in s.channel && e != s.channel[0] ==> e in s.channel[1..];
  }

  /** When the last message is in, nobody has found anything, nobody saw a stop, and so every worker used
      up its attempts. */
  lemma AllReported(p: Search, s: State)
    requires WellFormed(p) && Inv(p, s) && s.collector == Receiving(0)
    ensures InVain(p) && forall i :: 0 <= i < p.threads ==> Terminated(s.workers[i])
  {
    hide FoundBy, Failed;
    TotalZero(Unsent, s.workers);
    assert s.channel == [];
    forall i: nat | i < p.threads ensures Failed(p, i, WorkerAttempts(p, i)) && Terminated(s.workers[i]) {
      assert Unsent(s.workers[i]) == 0;
      assert WorkerOk(p, i, s.workers[i]) && s.workers[i].Finished?;
    }
  }

  lemma StopPreserves(p: Search, s: State)
    requires WellFormed(p) && Inv(p, s) && Enabled(p, s, StopAll)
    ensures Inv(p, s.(stop := true, collector := Joining(0)))
  {
    hide WorkerOk, FoundBy, InVain;
    if s.collector.Receiving? { AllReported(p, s); }
  }

  /** The receive loop never meets a closed channel: whoever has terminated has sent its message. */
  lemma NeverDisconnected(p: Search, s: State)
    requires WellFormed(p) && Inv(p, s)
    ensures !Enabled(p, s, Disconnect)
  {
    hide WorkerOk, FoundBy, InVain;
    TotalZero(Unsent, s.workers);
  }

  lemma StepInv(p: Search, s: State, a: Action)
    requires WellFormed(p) && Inv(p, s) && Enabled(p, s, a)
    ensures Inv(p, Apply(p, s, a))
  {
    hide Inv, FoundBy, InVain, Total, Solves, SolutionHash;
    InvParts(p, s);
    match a
    case Guard(i, sawStop) => LocalMove(p, s, i, Guarded(WorkerAttempts(p, i), s.workers[i], sawStop));
    case HashOne(i) =>
      TriedOk(p, i, s.workers[i]);
      LocalMove(p, s, i, Tried(p, s.workers[i]));
    case SendFound(i) => SendPreserves(p, s, i, Storing(s.workers[i].found), Found(s.workers[i].found));
    case StoreStop(i) => StorePreserves(p, s, i);
    case SendNone(i) => SendPreserves(p, s, i, Finished(s.workers[i].attempts, s.workers[i].sawStop), Exhausted);
    case Receive => ReceivePreserves(p, s);
    case Disconnect => NeverDisconnected(p, s);
    case StopAll => StopPreserves(p, s);
    case Join => JoinPreserves(p, s, a);
    case Return => JoinPreserves(p, s, a);
  }

  lemma InvParts(p: Search, s: State)
    requires WellFormed(p) && Inv(p, s)
    ensures |s.workers| == p.threads
    ensures forall i :: 0 <= i < p.threads ==> WorkerOk(p, i, s.workers[i])
    ensures forall i :: 0 <= i < p.threads && SawStop(s.workers[i]) ==> s.stop
  {}

  lemma JoinPreserves(p: Search, s: State, a: Action)
    requires WellFormed(p) && Inv(p, s) && (a == Join || a == Return) && Enabled(p, s, a)
    ensures Inv(p, Apply(p, s, a))
  {
    hide WorkerOk, FoundBy, InVain;
  }

  lemma {:induction false} ExecuteInv(p: Search, schedule: seq<Action>)
    requires WellFormed(p) && Execute(p, schedule).Some?
    ensures Inv(p, Execute(p, schedule).value)
  {
    hide Inv, Enabled, Apply;
    if schedule == [] {
      InitInv(p);
    } else {
      var before := schedule[..|schedule| - 1];
      ExecuteInv(p, before);
      StepInv(p, Execute(p, before).value, schedule[|schedule| - 1]);
    }
  }

  // ----- what the search returns

  lemma FoundIsValid(p: Search, i: nat, found: FoundSolution)
    requires WellFormed(p) && FoundBy(p, i, found)
    ensures Valid(p.sha, p.input, found)
  {
    hide Solves, SolutionHash, WorkerAttempts;
    ShareInWindow(p, i, found.attempts - 1);
    assert found.nonce == NonceAt(p.input, Offset(p, i, found.attempts - 1));
  }

  /** Soundness and completeness for every thread count and schedule: a returned solution is valid, with
      the hash of its nonce, and nothing is returned only when every attempt of every worker failed. */
  lemma SearchVerdict(p: Search, schedule: seq<Action>)
    requires WellFormed(p) && Execute(p, schedule).Some? && Execute(p, schedule).value.collector.Returned?
    ensures match Execute(p, schedule).value.solution
            case Some(found) => Valid(p.sha, p.input, found) && exists i :: FoundBy(p, i, found)
            case None => InVain(p)
    ensures forall w :: w in Execute(p, schedule).value.workers ==> Terminated(w)
  {
    hide Execute, WorkerOk, FoundBy, Failed, Valid, InVain;
    ExecuteInv(p, schedule);
    var s := Execute(p, schedule).value;
    if s.solution.Some? {
      var i :| FoundBy(p, i, s.solution.value);
      FoundIsValid(p, i, s.solution.value);
    }
  }

  /** Whenever the workers divide the whole window, the search answers for it: it returns None exactly
      when no nonce of the window solves. */
  lemma SearchAnswers(p: Search, schedule: seq<Action>)
    requires WellFormed(p) && Execute(p, schedule).Some? && Execute(p, schedule).value.collector.Returned?
    requires p.input.maxAttempts + p.threads <= TWO_64
    ensures Answers(p.sha, p.input, Execute(p, schedule).value.solution)
    ensures Execute(p, schedule).value.solution == None <==> !WindowSolvable(p.sha, p.input)
  {
    hide Execute, Solves, SolutionHash, WorkerAttempts;
    SearchVerdict(p, schedule);
    if InVain(p) {
      forall k: nat | k < p.input.maxAttempts ensures !Solves(p.sha, p.input, NonceAt(p.input, k)) {
        var i, j := OwnerOf(p, k);
        assert Failed(p, i, WorkerAttempts(p, i)) && NonceOf(p, i, j) == NonceAt(p.input, k);
      }
    }
  }

  /** Beyond that bound the first nonce of the window is nobody's: a search whose only solution it is
      returns nothing, on every schedule. */
  lemma OverflowMissesStart(p: Search, schedule: seq<Action>)
    requires WellFormed(p) && Execute(p, schedule).Some?
    requires p.input.maxAttempts + p.threads > TWO_64
    requires forall k: nat :: 1 <= k < p.input.maxAttempts ==> !Solves(p.sha, p.input, NonceAt(p.input, k))
    ensures Execute(p, schedule).value.solution == None
  {
    hide Execute, Solves, SolutionHash, WorkerOk, WorkerAttempts, InVain;
    ExecuteInv(p, schedule);
    FirstShareWraps(p);
    var s := Execute(p, schedule).value;
    if s.solution.Some? {
      var i :| FoundBy(p, i, s.solution.value);
      var j := s.solution.value.attempts - 1;
      ShareInWindow(p, i, j);
      MulNonNegative(j, p.threads);
      assert false;
    }
  }

  // ----- every schedule ends, and it ends by returning

  function Rank(p: Search, i: nat, w: Worker): nat
    requires WellFormed(p)
  {
    var limit := if i < p.threads then WorkerAttempts(p, i) else 0;
    match w
    case Checking(a, _) => 2 * Max(limit - a, 0) + 4
    case Hashing(a, _) => 2 * Max(limit - a, 0) + 3
    case Sending(_) => 3
    case Reporting(_, _) => 2
    case Storing(_) => 1
    case _ => 0
  }

  function CollectorRank(p: Search, c: Collector): nat {
    match c
    case Receiving(_) => p.threads + 3
    case Stopping => p.threads + 2
    case Joining(next) => Max(p.threads - next, 0) + 1
    case Returned => 0
  }

  /** What every worker may still do. */
  function Ranks(p: Search, workers: seq<Worker>): seq<nat>
    requires WellFormed(p)
  {
    seq(|workers|, i requires 0 <= i < |workers| => Rank(p, i, workers[i]))
  }

  function Itself(n: nat): nat { n }

  /** The steps still possible. */
  function Remaining(p: Search, s: State): nat
    requires WellFormed(p)
  {
    Total(Itself, Ranks(p, s.workers)) + |s.channel| + CollectorRank(p, s.collector)
  }

  lemma RanksUpdate(p: Search, s: State, i: nat, w: Worker)
    requires WellFormed(p) && i < |s.workers|
    ensures Total(Itself, Ranks(p, Moved(s, i, w).workers)) + Rank(p, i, s.workers[i])
         == Total(Itself, Ranks(p, s.workers)) + Rank(p, i, w)
  {
    hide Rank, Total;
    TotalUpdate(Itself, Ranks(p, s.workers), i, Rank(p, i, w));
    assert Ranks(p, Moved(s, i, w).workers) == Ranks(p, s.workers)[i := Rank(p, i, w)];
  }

  lemma StepDecreases(p: Search, s: State, a: Action)
    requires WellFormed(p) && Inv(p, s) && Enabled(p, s, a)
    ensures Remaining(p, Apply(p, s, a)) < Remaining(p, s)
  {
    hide Inv, FoundBy, InVain, Failed, Solves, SolutionHash, WorkerAttempts, Total, Ranks;
    InvParts(p, s);
    match a
    case Guard(i, sawStop) => RanksUpdate(p, s, i, Guarded(WorkerAttempts(p, i), s.workers[i], sawStop));
    case HashOne(i) => RanksUpdate(p, s, i, Tried(p, s.workers[i]));
    case SendFound(i) => RanksUpdate(p, s, i, Storing(s.workers[i].found));
    case StoreStop(i) => RanksUpdate(p, s, i, Solved(s.workers[i].found));
    case SendNone(i) => RanksUpdate(p, s, i, Finished(s.workers[i].attempts, s.workers[i].sawStop));
    case _ =>
  }

  lemma {:induction false} StepsBounded(p: Search, schedule: seq<Action>)
    requires WellFormed(p) && Execute(p, schedule).Some?
    ensures |schedule| + Remaining(p, Execute(p, schedule).value) <= Remaining(p, Init(p))
  {
    hide Inv, Enabled, Apply, Remaining;
    if schedule != [] {
      var before := schedule[..|schedule| - 1];
      StepsBounded(p, before);
      ExecuteInv(p, before);
      StepDecreases(p, Execute(p, before).value, schedule[|schedule| - 1]);
    }
  }

  /** No worker's share exceeds the window. */
  lemma ShareAtMostWindow(p: Search, i: nat)
    requires WellFormed(p) && i < p.threads
    ensures WorkerAttempts(p, i) <= p.input.maxAttempts
  {
    hide WorkerAttempts, Offset;
    var d := WorkerAttempts(p, i);
    if d > 0 {
      ShareInWindow(p, i, d - 1);
      OffsetAtLeast(p, i, d - 1);
    }
  }

  lemma OffsetAtLeast(p: Search, i: nat, j: nat)
    requires WellFormed(p)
    ensures Offset(p, i, j) >= j
  {
    MulMonotone(1, p.threads, j);
  }

  /** Every schedule ends: a thread takes at most two steps per nonce of the window and four more, each
      message is received once, and the main thread adds a step per join and three. */
  lemma SchedulesEnd(p: Search, schedule: seq<Action>)
    requires WellFormed(p) && Execute(p, schedule).Some?
    ensures |schedule| <= p.threads * (2 * p.input.maxAttempts + 4) + p.threads + 3
  {
    hide Execute, WorkerAttempts, Total;
    StepsBounded(p, schedule);
    var ranks := Ranks(p, Init(p).workers);
    forall i | 0 <= i < |ranks| ensures Itself(ranks[i]) <= 2 * p.input.maxAttempts + 4 {
      ShareAtMostWindow(p, i);
    }
    TotalAtMost(Itself, ranks, 2 * p.input.maxAttempts + 4);
  }

  /** A worker that has not terminated can always move. */
  function MoveOf(i: nat, w: Worker): Action
    requires !Terminated(w)
  {
    match w
    case Checking(_, _) => Guard(i, false)
    case Hashing(_, _) => HashOne(i)
    case Sending(_) => SendFound(i)
    case Storing(_) => StoreStop(i)
    case Reporting(_, _) => SendNone(i)
  }

  /** The search never gets stuck before it returns, and never through the closed-channel branch. */
  lemma SearchProgresses(p: Search, schedule: seq<Action>) returns (a: Action)
    requires WellFormed(p) && Execute(p, schedule).Some? && !Execute(p, schedule).value.collector.Returned?
    ensures Execute(p, schedule + [a]).Some? && a != Disconnect
    ensures !Enabled(p, Execute(p, schedule).value, Disconnect)
  {
    hide WorkerOk, FoundBy, InVain, Apply;
    ExecuteInv(p, schedule);
    var s := Execute(p, schedule).value;
    NeverDisconnected(p, s);
    if s.collector.Joining? && s.collector.next == |s.workers| {
      a := Return;
    } else if s.collector.Joining? {
      var w := s.workers[s.collector.next];
      a := if Terminated(w) then Join else MoveOf(s.collector.next, w);
    } else if s.collector.Stopping? || s.collector == Receiving(0) {
      a := StopAll;
    } else if s.channel != [] {
      a := Receive;
    } else {
      TotalZero(Unsent, s.workers);
      var i: nat :| i < |s.workers| && Unsent(s.workers[i]) != 0;
      a := MoveOf(i, s.workers[i]);
    }
    assert (schedule + [a])[..|schedule|] == schedule;
  }
  /** Whatever has happened so far, the search can still be scheduled to its return. */
  lemma {:induction false} SearchCanReturn(p: Search, schedule: seq<Action>) returns (full: seq<Action>)
    requires WellFormed(p) && Execute(p, schedule).Some?
    ensures schedule <= full && Execute(p, full).Some? && Execute(p, full).value.collector.Returned?
    decreases p.threads * (2 * p.input.maxAttempts + 4) + p.threads + 3 - |schedule|
  {
    hide Execute, Enabled, Apply;
    SchedulesEnd(p, schedule);
    if Execute(p, schedule).value.collector.Returned? {
      full := schedule;
    } else {
      var a := SearchProgresses(p, schedule);
      SchedulesEnd(p, schedule + [a]);
      full := SearchCanReturn(p, schedule + [a]);
    }
  }

  /** Nothing is then the wrong answer: the window does hold a solution, its first nonce. */
  lemma OverflowMisanswers(p: Search, schedule: seq<Action>)
    requires WellFormed(p) && Execute(p, schedule).Some?
    requires p.input.maxAttempts + p.threads > TWO_64
    requires Solves(p.sha, p.input, NonceAt(p.input, 0))
    requires forall k: nat :: 1 <= k < p.input.maxAttempts ==> !Solves(p.sha, p.input, NonceAt(p.input, k))
    ensures Execute(p, schedule).value.solution == None && WindowSolvable(p.sha, p.input)
    ensures !Answers(p.sha, p.input, Execute(p, schedule).value.solution)
  {
    hide Execute, Solves;
    OverflowMissesStart(p, schedule);
    assert 0 < p.input.maxAttempts && Solves(p.sha, p.input, NonceAt(p.input, 0));
  }
}
