/** One search round: the nonce space is cut into consecutive windows, one per engine, and the engines'
    answers are collected in whatever order they arrive. */
module MinerLoop {
  import opened Ints
  import opened Wrappers
  import opened Preimages
  import opened Engine

  datatype BackendKind = Cpu | Gpu

  datatype SearchJob = SearchJob(backend: BackendKind, input: SearchInput)

  /** The attempts of the first i jobs together. */
  function AttemptsBefore(jobs: seq<SearchJob>, i: nat): nat
    requires i <= |jobs|
  {
    if i == 0 then 0 else AttemptsBefore(jobs, i - 1) + jobs[i - 1].input.maxAttempts
  }

  function TotalAttempts(jobs: seq<SearchJob>): nat { AttemptsBefore(jobs, |jobs|) }

  lemma {:induction false} AttemptsBeforePrefix(a: seq<SearchJob>, b: seq<SearchJob>, i: nat)
    requires i <= |a|
    ensures AttemptsBefore(a + b, i) == AttemptsBefore(a, i)
  {
    if i > 0 { AttemptsBeforePrefix(a, b, i - 1); }
  }

  /** Job i searches the nonces that follow those of the jobs before it, for the same proof. */
  predicate Consecutive(input: SearchInput, jobs: seq<SearchJob>) {
    forall i :: 0 <= i < |jobs| ==> Follows(input, jobs[i], AttemptsBefore(jobs, i))
  }

  predicate Follows(input: SearchInput, job: SearchJob, before: nat) {
    && job.input.challenge == input.challenge && job.input.miner == input.miner && job.input.target == input.target
    && job.input.startNonce == NonceAt(input, before)
  }

  lemma Appended(input: SearchInput, jobs: seq<SearchJob>, job: SearchJob)
    requires Consecutive(input, jobs)
    requires Follows(input, job, TotalAttempts(jobs))
    ensures Consecutive(input, jobs + [job])
    ensures TotalAttempts(jobs + [job]) == TotalAttempts(jobs) + job.input.maxAttempts
    ensures NonceAt(input, TotalAttempts(jobs + [job])) == WrapAdd64(job.input.startNonce, job.input.maxAttempts)
  {
    hide NonceAt, WrapAdd64, AttemptsBefore;
    var more := jobs + [job];
    forall i: nat | i <= |jobs| ensures AttemptsBefore(more, i) == AttemptsBefore(jobs, i) {
      AttemptsBeforePrefix(jobs, [job], i);
    }
    forall i | 0 <= i < |more| ensures Follows(input, more[i], AttemptsBefore(more, i)) {
      if i < |jobs| { assert more[i] == jobs[i]; }
    }
    AttemptsAt(more, |jobs|);
    NonceAdvances(input, TotalAttempts(jobs), job.input.maxAttempts);
  }

  lemma NoJobs(input: SearchInput)
    ensures Consecutive(input, []) && NonceAt(input, TotalAttempts([])) == input.startNonce
  {}

  method BuildJobs(engines: seq<BackendKind>, batchSize: u64, gpuBatchSize: u64, input: SearchInput)
    returns (jobs: seq<SearchJob>)
    ensures |jobs| == |engines| && Consecutive(input, jobs)
    ensures forall i :: 0 <= i < |jobs| ==> jobs[i].backend == engines[i]
    ensures forall i :: 0 <= i < |jobs| ==>
      jobs[i].input.maxAttempts == if engines[i] == Gpu then gpuBatchSize else batchSize
  {
    hide NonceAt, AttemptsBefore, WrapAdd64;
    jobs := [];
    var nextNonce := input.startNonce;
    NoJobs(input);
    for n := 0 to |engines|
      invariant |jobs| == n && Consecutive(input, jobs)
      invariant nextNonce == NonceAt(input, TotalAttempts(jobs))
      invariant forall i :: 0 <= i < n ==> jobs[i].backend == engines[i]
      invariant forall i :: 0 <= i < n ==>
        jobs[i].input.maxAttempts == if engines[i] == Gpu then gpuBatchSize else batchSize
    {
      var attempts := match engines[n] case Cpu => batchSize case Gpu => gpuBatchSize;
      var job := SearchJob(engines[n], SearchInput(input.challenge, input.miner, input.target, nextNonce, attempts));
      Appended(input, jobs, job);
      jobs := jobs + [job];
      nextNonce := WrapAdd64(nextNonce, attempts);
    }
  }

  // ----- collecting the answers

  /** A solution with the time its engine took. */
  datatype Candidate = Candidate(solution: FoundSolution, elapsed: nat)

  type Answer<E> = Result<Option<Candidate>, E>

  datatype BatchReport = BatchReport(backend: BackendKind, attempts: u64, elapsed: nat, found: bool)

  datatype RoundOutcome = RoundOutcome(solution: Option<Candidate>, reports: seq<BatchReport>, nextNonce: u64)

  /** `order` lists every job once, in the order in which the answers arrive. */
  predicate Arrivals(order: seq<nat>, n: nat) {
    && |order| == n
    && (forall k :: 0 <= k < n ==> order[k] < n)
    && (forall i :: 0 <= i < n ==> i in order)
  }

  /** Among the first n arrivals `best` is the fastest candidate, the first to arrive when several tie. */
  predicate Fastest<E>(answers: seq<Answer<E>>, order: seq<nat>, n: nat, best: Option<Candidate>)
    requires n <= |order| && (forall k :: 0 <= k < n ==> order[k] < |answers| && answers[order[k]].Success?)
  {
    match best
    case None => forall k :: 0 <= k < n ==> answers[order[k]].value == None
    case Some(_) => exists b :: 0 <= b < n && FastestAt(answers, order, n, b) && answers[order[b]].value == best
  }

  /** Nobody before b is as fast, nobody after b is faster. */
  predicate FastestAt<E>(answers: seq<Answer<E>>, order: seq<nat>, n: nat, b: nat)
    requires b < n <= |order| && (forall k :: 0 <= k < n ==> order[k] < |answers| && answers[order[k]].Success?)
  {
    && answers[order[b]].value.Some?
    && (forall k :: 0 <= k < b ==> SlowerThan(answers[order[k]].value, answers[order[b]].value.value, false))
    && (forall k :: b <= k < n ==> SlowerThan(answers[order[k]].value, answers[order[b]].value.value, true))
  }

  predicate SlowerThan(other: Option<Candidate>, candidate: Candidate, tieAllowed: bool) {
    other.Some? ==> candidate.elapsed < other.value.elapsed || (tieAllowed && candidate.elapsed == other.value.elapsed)
  }

  /** One more arrival: it replaces the best so far only when it is strictly faster. */
  lemma FastestExtends<E>(answers: seq<Answer<E>>, order: seq<nat>, n: nat, best: Option<Candidate>,
                          next: Option<Candidate>)
    requires n < |order| && forall k :: 0 <= k <= n ==> order[k] < |answers| && answers[order[k]].Success?
    requires Fastest(answers, order, n, best)
    requires var answer := answers[order[n]].value;
      next == if answer.Some? && !(best.Some? && best.value.elapsed <= answer.value.elapsed) then answer else best
    ensures Fastest(answers, order, n + 1, next)
  {
    if next != best || (next.Some? && answers[order[n]].value == next && best.None?) {
      assert FastestAt(answers, order, n + 1, n);
    } else if best.Some? {
      var b :| 0 <= b < n && FastestAt(answers, order, n, b) && answers[order[b]].value == best;
      assert FastestAt(answers, order, n + 1, b);
    }
  }

  /** The wrapping sum of the job sizes, as the round adds it to the start nonce. */
  method NextNonce(input: SearchInput, jobs: seq<SearchJob>) returns (next: u64)
    ensures next == NonceAt(input, TotalAttempts(jobs))
  {
    var sum: u64 := 0;
    for n := 0 to |jobs|
      invariant sum == AttemptsBefore(jobs, n) % TWO_64
    {
      WrapTwice(AttemptsBefore(jobs, n), jobs[n].input.maxAttempts);
      sum := WrapAdd64(sum, jobs[n].input.maxAttempts);
    }
    WrapTwice(TotalAttempts(jobs), input.startNonce);
    next := WrapAdd64(input.startNonce, sum);
  }

  predicate FirstFailure<E(==)>(answers: seq<Answer<E>>, order: seq<nat>, k: nat, error: E)
    requires k < |order| && forall j :: 0 <= j <= k ==> order[j] < |answers|
  {
    answers[order[k]] == Failure(error) && forall j :: 0 <= j < k ==> answers[order[j]].Success?
  }

  /** The receive loop over the engines' answers and the times they took: the first failure to arrive ends
      the round; otherwise every answer is reported and the fastest solution wins. */
  method CollectRound<E(==)>(input: SearchInput, jobs: seq<SearchJob>, answers: seq<Answer<E>>, times: seq<nat>,
                             order: seq<nat>)
    returns (outcome: Result<RoundOutcome, E>)
    requires |answers| == |times| == |jobs| && Arrivals(order, |jobs|)
    ensures outcome.Failure? <==> exists i :: 0 <= i < |answers| && answers[i].Failure?
    ensures outcome.Failure? ==> exists k :: 0 <= k < |order| && FirstFailure(answers, order, k, outcome.error)
    ensures outcome.Success? ==> var round := outcome.value;
      && Fastest(answers, order, |order|, round.solution)
      && round.nextNonce == NonceAt(input, TotalAttempts(jobs))
      && |round.reports| == |jobs|
      && forall k :: 0 <= k < |jobs| ==> var i := order[k];
        round.reports[k] == BatchReport(jobs[i].backend, jobs[i].input.maxAttempts, times[i], answers[i].value.Some?)
  {
    var nextNonce := NextNonce(input, jobs);
    var reports: seq<BatchReport> := [];
    var solution: Option<Candidate> := None;
    for n := 0 to |order|
      invariant |reports| == n && forall k :: 0 <= k < n ==> answers[order[k]].Success?
      invariant forall k :: 0 <= k < n ==> var i := order[k];
        reports[k] == BatchReport(jobs[i].backend, jobs[i].input.maxAttempts, times[i], answers[i].value.Some?)
      invariant Fastest(answers, order, n, solution)
    {
      var job, answer := jobs[order[n]], answers[order[n]];
      if answer.Failure? {
        assert FirstFailure(answers, order, n, answer.error);
        return Failure(answer.error);
      }
      reports := reports
        + [BatchReport(job.backend, job.input.maxAttempts, times[order[n]], answer.value.Some?)];
      ghost var before := solution;
      if answer.value.Some? {
        var candidate := answer.value.value;
        if !(solution.Some? && solution.value.elapsed <= candidate.elapsed) {
          solution := Some(candidate);
        }
      }
      FastestExtends(answers, order, n, before, solution);
    }
    forall i | 0 <= i < |answers| ensures answers[i].Success? {
      assert i in order;
    }
    outcome := Success(RoundOutcome(solution, reports, nextNonce));
  }

  // ----- what a round answers

  /** Some nonce of the first `total` after the start solves. */
  ghost predicate SpanSolvable(sha: Hash, input: SearchInput, total: nat) {
    exists k: nat :: k < total && Solves(sha, input, NonceAt(input, k))
  }

  /** The engine of every job did what it owes for its own window. */
  ghost predicate EnginesAnswer<E>(sha: Hash, jobs: seq<SearchJob>, answers: seq<Answer<E>>) {
    |answers| == |jobs| && forall i :: 0 <= i < |jobs| ==>
      answers[i].Success? && Answers(sha, jobs[i].input, Bare(answers[i].value))
  }

  function Bare(candidate: Option<Candidate>): Option<FoundSolution> {
    match candidate
    case None => None
    case Some(c) => Some(c.solution)
  }

  lemma {:induction false} AttemptsMonotone(jobs: seq<SearchJob>, i: nat, j: nat)
    requires i <= j <= |jobs|
    ensures AttemptsBefore(jobs, i) <= AttemptsBefore(jobs, j)
  {
    if i < j { AttemptsMonotone(jobs, i, j - 1); }
  }

  /** The job whose window holds offset k. */
  lemma {:induction false} JobOf(jobs: seq<SearchJob>, n: nat, k: nat) returns (i: nat)
    requires n <= |jobs| && k < AttemptsBefore(jobs, n)
    ensures i < n && AttemptsBefore(jobs, i) <= k < AttemptsBefore(jobs, i + 1)
  {
    if k < AttemptsBefore(jobs, n - 1) { i := JobOf(jobs, n - 1, k); } else { i := n - 1; }
  }

  /** A job's k-th nonce is the round's nonce at that offset, tried against the same proof. */
  lemma JobNonce(sha: Hash, input: SearchInput, jobs: seq<SearchJob>, i: nat, k: nat)
    requires Consecutive(input, jobs) && i < |jobs|
    ensures NonceAt(jobs[i].input, k) == NonceAt(input, AttemptsBefore(jobs, i) + k)
    ensures Solves(sha, jobs[i].input, NonceAt(jobs[i].input, k))
        <==> Solves(sha, input, NonceAt(input, AttemptsBefore(jobs, i) + k))
  {
    hide Solves, NonceAt;
    NonceSum(input, jobs[i].input, AttemptsBefore(jobs, i), k);
    SameProof(sha, jobs[i].input, input, NonceAt(jobs[i].input, k));
  }

  lemma SameProof(sha: Hash, a: SearchInput, b: SearchInput, nonce: u64)
    requires a.challenge == b.challenge && a.miner == b.miner && a.target == b.target
    ensures SolutionHash(sha, a, nonce) == SolutionHash(sha, b, nonce)
    ensures Solves(sha, a, nonce) <==> Solves(sha, b, nonce)
  {
    hide ProofPreimage;
  }

  /** A round finds nothing exactly when nothing in its whole span solves, whatever the arrival order; and
      the solution it picks comes from the span and passes the program's check. */
  lemma RoundAnswers<E>(sha: Hash, input: SearchInput, jobs: seq<SearchJob>, answers: seq<Answer<E>>,
                        order: seq<nat>, solution: Option<Candidate>)
    requires Consecutive(input, jobs) && EnginesAnswer(sha, jobs, answers) && Arrivals(order, |jobs|)
    requires Fastest(answers, order, |order|, solution)
    ensures solution == None <==> !SpanSolvable(sha, input, TotalAttempts(jobs))
    ensures solution.Some? ==> var found := solution.value.solution;
      && (exists k: nat :: k < TotalAttempts(jobs) && found.nonce == NonceAt(input, k))
      && found.hash == SolutionHash(sha, input, found.nonce) && Solves(sha, input, found.nonce)
  {
    hide Solves, NonceAt, SolutionHash, AttemptsBefore, Fastest;
    if solution.Some? {
      var i, k := PickedFrom(sha, jobs, answers, order, solution);
      JobNonce(sha, input, jobs, i, k);
      SameProof(sha, jobs[i].input, input, solution.value.solution.nonce);
      AttemptsAt(jobs, i);
      AttemptsMonotone(jobs, i + 1, |jobs|);
      var o := AttemptsBefore(jobs, i) + k;
      assert o < TotalAttempts(jobs) && Solves(sha, input, NonceAt(input, o));
    } else if SpanSolvable(sha, input, TotalAttempts(jobs)) {
      var o: nat :| o < TotalAttempts(jobs) && Solves(sha, input, NonceAt(input, o));
      var i := JobOf(jobs, |jobs|, o);
      AttemptsAt(jobs, i);
      var k := o - AttemptsBefore(jobs, i);
      JobNonce(sha, input, jobs, i, k);
      NothingPicked(answers, order, i);
      assert false;
    }
  }

  lemma AttemptsAt(jobs: seq<SearchJob>, i: nat)
    requires i < |jobs|
    ensures AttemptsBefore(jobs, i + 1) == AttemptsBefore(jobs, i) + jobs[i].input.maxAttempts
  {}

  lemma PickedFrom<E>(sha: Hash, jobs: seq<SearchJob>, answers: seq<Answer<E>>, order: seq<nat>,
                      solution: Option<Candidate>)
    returns (i: nat, k: nat)
    requires EnginesAnswer(sha, jobs, answers) && Arrivals(order, |jobs|)
    requires solution.Some? && Fastest(answers, order, |order|, solution)
    ensures i < |jobs| && Valid(sha, jobs[i].input, solution.value.solution)
    ensures k < jobs[i].input.maxAttempts && solution.value.solution.nonce == NonceAt(jobs[i].input, k)
  {
    hide Solves, NonceAt, SolutionHash, FastestAt;
    var b :| 0 <= b < |order| && FastestAt(answers, order, |order|, b) && answers[order[b]].value == solution;
    i := order[b];
    k :| k < jobs[i].input.maxAttempts && solution.value.solution.nonce == NonceAt(jobs[i].input, k);
  }

  lemma NothingPicked<E>(answers: seq<Answer<E>>, order: seq<nat>, i: nat)
    requires i < |answers| && Arrivals(order, |answers|)
    requires (forall k :: 0 <= k < |order| ==> answers[order[k]].Success?) && Fastest(answers, order, |order|, None)
    ensures answers[i] == Success(None)
  {
    assert i in order;
    var k :| 0 <= k < |order| && order[k] == i;
    assert answers[order[k]].value == None;
  }

  /** The windows of a round are disjoint exactly when its span is at most the whole nonce space. */
  lemma SpanDistinctIff(input: SearchInput, total: nat)
    ensures (forall k: nat, l: nat :: k < l < total ==> NonceAt(input, k) != NonceAt(input, l)) <==> total <= TWO_64
  {
    if total > TWO_64 { assert NonceAt(input, 0) == NonceAt(input, TWO_64); }
  }
}
