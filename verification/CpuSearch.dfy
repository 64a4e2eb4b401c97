/** The multi-threaded search as interleaved atomic steps: strided workers, a stop flag that may be read
    stale, a message channel and a collecting main thread. */
module CpuSearch {
  import opened Ints
  import opened Powers
  import opened Bytes
  import opened Wrappers
  import opened Preimages
  import opened Engine
  import opened Sums

  /** One call of search_batch. */
  datatype Search = Search(sha: Hash, input: SearchInput, threads: u64)

  predicate WellFormed(p: Search) { p.threads >= 1 }

  // ----- how the window is divided

  /** A worker's share of the attempts, in wrapping u64 arithmetic. */
  function WorkerAttempts(p: Search, i: nat): u64
    requires WellFormed(p) && i < p.threads
  {
    if i >= p.input.maxAttempts then 0
    else
      ShareFits((p.input.maxAttempts - i + p.threads - 1) % TWO_64, p.threads);
      (p.input.maxAttempts - i + p.threads - 1) % TWO_64 / p.threads
  }

  lemma ShareFits(n: nat, d: nat)
    requires d >= 1
    ensures n / d <= n
  {
    DivAdjoint(n, d, n + 1);
    MulMonotone(1, d, n + 1);
  }

  /** The j-th offset into the window that worker i tries. */
  function Offset(p: Search, i: nat, j: nat): nat {
    MulNonNegative(j, p.threads);
    i + j * p.threads
  }

  /** The j-th nonce of worker i: its base nonce advanced j times by the thread count. */
  function NonceOf(p: Search, i: nat, j: nat): u64 {
    NonceAt(p.input, Offset(p, i, j))
  }

  /** A worker advances by wrapping addition of the thread count. */
  lemma WorkerAdvances(p: Search, i: nat, j: nat)
    ensures WrapAdd64(NonceOf(p, i, j), p.threads) == NonceOf(p, i, j + 1)
  {
    assert Offset(p, i, j + 1) == Offset(p, i, j) + p.threads by {
      assert (j + 1) * p.threads == j * p.threads + p.threads;
    }
    NonceAdvances(p.input, Offset(p, i, j), p.threads);
  }

  /** No worker leaves the window, whatever the thread count. */
  lemma ShareInWindow(p: Search, i: nat, j: nat)
    requires WellFormed(p) && i < p.threads && j < WorkerAttempts(p, i)
    ensures Offset(p, i, j) < p.input.maxAttempts
  {
    var n := p.input.maxAttempts - i + p.threads - 1;
    DivAdjoint(n % TWO_64, p.threads, j + 1);
    assert (j + 1) * p.threads == j * p.threads + p.threads;
  }

  predicate Owns(p: Search, i: nat, j: nat, k: nat)
    requires WellFormed(p)
  {
    i < p.threads && j < WorkerAttempts(p, i) && Offset(p, i, j) == k
  }

  ghost predicate Owned(p: Search, k: nat)
    requires WellFormed(p)
  {
    exists i: nat, j: nat :: Owns(p, i, j, k)
  }

  /** Every offset of the window is some worker's. */
  ghost predicate Covers(p: Search)
    requires WellFormed(p)
  {
    forall k: nat :: k < p.input.maxAttempts ==> Owned(p, k)
  }

  lemma Euclid(k: nat, d: nat) returns (r: nat, q: nat)
    requires d >= 1
    ensures r < d && r + q * d == k
  {
    r, q := k % d, k / d;
  }

  lemma ShareReaches(n: nat, d: nat, i: nat, j: nat)
    requires d >= 1 && i + j * d < n && i < n
    ensures j < (n - i + d - 1) / d
  {
    assert (j + 1) * d == j * d + d;
    DivAdjoint(n - i + d - 1, d, j + 1);
  }

  /** Without wrapping, a worker's share is its part of the window rounded up. */
  lemma FullShare(p: Search, i: nat)
    requires WellFormed(p) && p.input.maxAttempts + p.threads <= TWO_64
    requires i < p.threads && i < p.input.maxAttempts
    ensures WorkerAttempts(p, i) == (p.input.maxAttempts - i + p.threads - 1) / p.threads
  {
    NoWrap(p.input.maxAttempts - i + p.threads - 1);
  }

  lemma NoWrap(n: nat)
    requires n < TWO_64
    ensures n % TWO_64 == n
  {}

  lemma OwnerOf(p: Search, k: nat) returns (i: nat, j: nat)
    requires WellFormed(p) && p.input.maxAttempts + p.threads <= TWO_64 && k < p.input.maxAttempts
    ensures Owns(p, i, j, k)
  {
    hide WorkerAttempts;
    i, j := Euclid(k, p.threads);
    MulNonNegative(j, p.threads);
    FullShare(p, i);
    ShareReaches(p.input.maxAttempts, p.threads, i, j);
  }

  /** The share of the first worker wraps to nothing once attempts and threads together leave u64. */
  lemma FirstShareWraps(p: Search)
    requires WellFormed(p) && p.input.maxAttempts + p.threads > TWO_64
    ensures WorkerAttempts(p, 0) == 0
  {
    var n := p.input.maxAttempts + p.threads - 1;
    assert n % TWO_64 == n - TWO_64 < p.threads;
    DivAdjoint(n % TWO_64, p.threads, 1);
  }

  /** The workers divide the whole window exactly when attempts and threads together fit in u64. */
  lemma CoversIff(p: Search)
    requires WellFormed(p)
    ensures Covers(p) <==> p.input.maxAttempts + p.threads <= TWO_64
  {
    hide WorkerAttempts;
    if p.input.maxAttempts + p.threads <= TWO_64 {
      forall k: nat | k < p.input.maxAttempts ensures Owned(p, k) {
        var i, j := OwnerOf(p, k);
      }
    } else {
      FirstShareWraps(p);
      forall i: nat, j: nat ensures !Owns(p, i, j, 0) { MulNonNegative(j, p.threads); }
      assert !Owned(p, 0);
    }
  }

  /** No two attempts of the workers share an offset. */
  lemma SharesDisjoint(p: Search, i: nat, j: nat, k: nat, l: nat)
    requires WellFormed(p) && i < p.threads && k < p.threads && Offset(p, i, j) == Offset(p, k, l)
    ensures i == k && j == l
  {
    DivUnique(Offset(p, i, j), p.threads, j, i);
    DivUnique(Offset(p, k, l), p.threads, l, k);
  }

  // ----- the state

  /** Where a worker stands in its loop; `attempts` nonces have been hashed. */
  datatype Worker =
    | Checking(attempts: u64, nonce: u64)
    | Hashing(attempts: u64, nonce: u64)
    | Sending(found: FoundSolution)
    | Storing(found: FoundSolution)
    | Solved(found: FoundSolution)
    | Reporting(attempts: u64, sawStop: bool)
    | Finished(attempts: u64, sawStop: bool)

  datatype Message = Found(solution: FoundSolution) | Exhausted

  /** A message in the channel, with its sender. */
  datatype Envelope = Envelope(sender: nat, message: Message)

  /** Where the main thread stands after spawning the workers. */
  datatype Collector = Receiving(pending: nat) | Stopping | Joining(next: nat) | Returned

  datatype State = State(
    workers: seq<Worker>, stop: bool, channel: seq<Envelope>, collector: Collector,
    solution: Option<FoundSolution>)

  function Init(p: Search): State
    requires WellFormed(p)
  {
    State(seq(p.threads, i requires 0 <= i < p.threads => Checking(0, NonceOf(p, i, 0))),
          false, [], Receiving(p.threads), None)
  }

  predicate Terminated(w: Worker) { w.Solved? || w.Finished? }

  /** The worker's one message is in the channel or has left it. */
  predicate Sent(w: Worker) { w.Storing? || Terminated(w) }

  // ----- the steps

  datatype Action =
    | Guard(i: nat, sawStop: bool)
    | HashOne(i: nat)
    | SendFound(i: nat)
    | StoreStop(i: nat)
    | SendNone(i: nat)
    | Receive
    | Disconnect
    | StopAll
    | Join
    | Return

  /** Whether an action can happen next. A relaxed load may miss a stop that was stored, but never sees
      one that was not; recv fails only once the channel is empty and every sender is gone. */
  predicate Enabled(p: Search, s: State, a: Action)
    requires WellFormed(p)
  {
    match a
    case Guard(i, sawStop) => i < |s.workers| && s.workers[i].Checking? && (sawStop ==> s.stop)
    case HashOne(i) => i < |s.workers| && s.workers[i].Hashing?
    case SendFound(i) => i < |s.workers| && s.workers[i].Sending?
    case StoreStop(i) => i < |s.workers| && s.workers[i].Storing?
    case SendNone(i) => i < |s.workers| && s.workers[i].Reporting?
    case Receive => s.collector.Receiving? && s.collector.pending > 0 && s.channel != []
    case Disconnect =>
      && s.collector.Receiving? && s.collector.pending > 0 && s.channel == []
      && forall i :: 0 <= i < |s.workers| ==> Terminated(s.workers[i])
    case StopAll => s.collector.Stopping? || s.collector == Receiving(0)
    case Join => s.collector.Joining? && s.collector.next < |s.workers| && Terminated(s.workers[s.collector.next])
    case Return => s.collector == Joining(|s.workers|)
  }

  /** The loop guard: attempts left and no stop seen. */
  function Guarded(limit: u64, w: Worker, sawStop: bool): Worker
    requires w.Checking?
  {
    if w.attempts >= limit then Reporting(w.attempts, false)
    else if sawStop then Reporting(w.attempts, true)
    else Hashing(w.attempts, w.nonce)
  }

  /** One pass through the loop body. */
  function Tried(p: Search, w: Worker): Worker
    requires w.Hashing?
  {
    var hash := SolutionHash(p.sha, p.input, w.nonce);
    var attempts := SatAdd64(w.attempts, 1);
    if LexLess(hash, p.input.target) then Sending(FoundSolution(w.nonce, hash, attempts))
    else Checking(attempts, WrapAdd64(w.nonce, p.threads))
  }

  /** What the collector does with a message. */
  function Collected(s: State, message: Message): State
    requires s.collector.Receiving? && s.collector.pending > 0
  {
    match message
    case Found(solution) => s.(solution := Some(solution), collector := Stopping)
    case Exhausted => s.(collector := Receiving(s.collector.pending - 1))
  }

  function Moved(s: State, i: nat, w: Worker): State
    requires i < |s.workers|
  {
    s.(workers := s.workers[i := w])
  }

  function Apply(p: Search, s: State, a: Action): (t: State)
    requires WellFormed(p) && |s.workers| == p.threads && Enabled(p, s, a)
    ensures |t.workers| == p.threads
  {
    match a
    case Guard(i, sawStop) => Moved(s, i, Guarded(WorkerAttempts(p, i), s.workers[i], sawStop))
    case HashOne(i) => Moved(s, i, Tried(p, s.workers[i]))
    case SendFound(i) =>
      var found := s.workers[i].found;
      Moved(s, i, Storing(found)).(channel := s.channel + [Envelope(i, Found(found))])
    case StoreStop(i) => Moved(s, i, Solved(s.workers[i].found)).(stop := true)
    case SendNone(i) =>
      var w := s.workers[i];
      Moved(s, i, Finished(w.attempts, w.sawStop)).(channel := s.channel + [Envelope(i, Exhausted)])
    case Receive => Collected(s.(channel := s.channel[1..]), s.channel[0].message)
    case Disconnect => s.(collector := Stopping)
    case StopAll => s.(stop := true, collector := Joining(0))
    case Join => s.(collector := Joining(s.collector.next + 1))
    case Return => s.(collector := Returned)
  }

  /** The state after a schedule; None when one of its actions was not enabled. */
  function Execute(p: Search, schedule: seq<Action>): (r: Option<State>)
    requires WellFormed(p)
    ensures r.Some? ==> |r.value.workers| == p.threads
  {
    if schedule == [] then Some(Init(p))
    else
      match Execute(p, schedule[..|schedule| - 1])
      case None => None
      case Some(m) =>
        var a := schedule[|schedule| - 1];
        if Enabled(p, m, a) then Some(Apply(p, m, a)) else None
  }

  // ----- the invariant

  /** Counts the workers that have not sent their message yet. */
  function Unsent(w: Worker): nat { if Sent(w) then 0 else 1 }

  /** The first `a` nonces of worker i do not solve. */
  ghost predicate Failed(p: Search, i: nat, a: nat) {
    forall j: nat :: j < a ==> !Solves(p.sha, p.input, NonceOf(p, i, j))
  }

  /** `found` is the solution of one of worker i's attempts. */
  predicate FoundBy(p: Search, i: nat, found: FoundSolution)
    requires WellFormed(p)
  {
    && i < p.threads
    && 1 <= found.attempts <= WorkerAttempts(p, i)
    && found.nonce == NonceOf(p, i, found.attempts - 1)
    && found.hash == SolutionHash(p.sha, p.input, found.nonce)
    && Solves(p.sha, p.input, found.nonce)
  }

  ghost predicate WorkerOk(p: Search, i: nat, w: Worker)
    requires WellFormed(p) && i < p.threads
  {
    match w
    case Checking(a, nonce) => a <= WorkerAttempts(p, i) && nonce == NonceOf(p, i, a) && Failed(p, i, a)
    case Hashing(a, nonce) => a < WorkerAttempts(p, i) && nonce == NonceOf(p, i, a) && Failed(p, i, a)
    case Sending(found) => FoundBy(p, i, found)
    case Storing(found) => FoundBy(p, i, found)
    case Solved(found) => FoundBy(p, i, found)
    case Reporting(a, sawStop) => Failed(p, i, a) && (!sawStop ==> a == WorkerAttempts(p, i))
    case Finished(a, sawStop) => Failed(p, i, a) && (!sawStop ==> a == WorkerAttempts(p, i))
  }

  predicate SawStop(w: Worker) { (w.Reporting? || w.Finished?) && w.sawStop }

  /** Every nonce of every worker was tried in vain. */
  ghost predicate InVain(p: Search)
    requires WellFormed(p)
  {
    forall i: nat :: i < p.threads ==> Failed(p, i, WorkerAttempts(p, i))
  }

  ghost predicate Inv(p: Search, s: State)
    requires WellFormed(p)
  {
    && |s.workers| == p.threads
    && (forall i :: 0 <= i < p.threads ==> WorkerOk(p, i, s.workers[i]))
    && (forall e :: e in s.channel && e.message.Found? ==> FoundBy(p, e.sender, e.message.solution))
    // a stop seen was stored, by a worker that had sent its solution or by the collector after its loop
    && (forall i :: 0 <= i < p.threads && SawStop(s.workers[i]) ==> s.stop)
    && (s.stop && s.collector.Receiving? ==> exists i :: 0 <= i < p.threads && s.workers[i].Solved?)
    // while the collector receives, it waits for every message not yet taken out of the channel
    && (s.collector.Receiving? ==>
      && s.solution == None
      && s.collector.pending == Total(Unsent, s.workers) + |s.channel|
      && forall i :: 0 <= i < p.threads && (s.workers[i].Storing? || s.workers[i].Solved?) ==>
        Envelope(i, Found(s.workers[i].found)) in s.channel)
    && (s.collector.Joining? ==>
      && s.collector.next <= p.threads
      && forall i :: 0 <= i < s.collector.next ==> Terminated(s.workers[i]))
    && (s.collector.Returned? ==> forall i :: 0 <= i < p.threads ==> Terminated(s.workers[i]))
    && (s.solution.Some? ==> exists i :: FoundBy(p, i, s.solution.value))
    && (!s.collector.Receiving? && s.solution == None ==> InVain(p))
  }
}
