/** Rounds of real engines, one after another. */
module Rounds {
  import opened Ints
  import opened Wrappers
  import opened Preimages
  import opened Engine
  import opened MinerLoop
  import CpuSearch
  import CpuSearchProof
  import GpuSearch

  /** How an engine ran its job: the thread schedule of a CPU search, or the launch geometry and the
      interleaving of a GPU search. */
  datatype EngineRun =
    | CpuRun(threads: u64, cpuSchedule: seq<CpuSearch.Action>)
    | GpuRun(maxWorkGroupSize: u64, requested: Option<u64>, capacity: u64,
             before: GpuSearch.State, gpuSchedule: seq<GpuSearch.Action>, after: GpuSearch.State)

  function LocalSize(run: EngineRun): Option<u64>
    requires run.GpuRun?
  {
    GpuSearch.ResolveLocalWorkSize(run.maxWorkGroupSize, run.requested, run.capacity)
  }

  function LaunchOf(sha: Hash, input: SearchInput, run: EngineRun): GpuSearch.Launch
    requires run.GpuRun?
  {
    GpuSearch.Launch(sha, input, GpuSearch.AlignGlobalWorkSize(input.maxAttempts, LocalSize(run)))
  }

  /** The engine's arithmetic stays within 64 bits for this job. */
  predicate Fits(input: SearchInput, run: EngineRun) {
    match run
    case CpuRun(threads, _) => input.maxAttempts + threads <= TWO_64
    case GpuRun(_, _, _, _, _, _) =>
      var size := if LocalSize(run).Some? then LocalSize(run).value else 1;
      size >= 1 && GpuSearch.RoundUp(Max(input.maxAttempts, 1), size) <= U64_MAX
  }

  /** The engine ran to its end on this input and returned `result`. */
  ghost predicate Ended(sha: Hash, input: SearchInput, run: EngineRun, result: Option<FoundSolution>) {
    match run
    case CpuRun(threads, schedule) =>
      var p := CpuSearch.Search(sha, input, threads);
      && CpuSearch.WellFormed(p) && CpuSearch.Execute(p, schedule).Some?
      && CpuSearch.Execute(p, schedule).value.collector.Returned?
      && result == CpuSearch.Execute(p, schedule).value.solution
    case GpuRun(_, _, _, before, schedule, after) =>
      var p := LaunchOf(sha, input, run);
      && GpuSearch.Initial(p, before) && GpuSearch.Steps(p, before, schedule, after)
      && (forall item :: item in after.items ==> GpuSearch.Terminated(item))
      && result == GpuSearch.ReadBack(p, after)
  }

  /** Either engine answers for its window, whatever the schedule, as long as its arithmetic fits. */
  lemma EngineAnswers(sha: Hash, input: SearchInput, run: EngineRun, result: Option<FoundSolution>)
    requires Ended(sha, input, run, result) && Fits(input, run)
    ensures Answers(sha, input, result)
  {
    hide Answers, CpuSearch.Execute, GpuSearch.Steps, GpuSearch.FloorPowerOfTwo;
    match run
    case CpuRun(threads, schedule) =>
      CpuSearchProof.SearchAnswers(CpuSearch.Search(sha, input, threads), schedule);
    case GpuRun(max, requested, capacity, before, schedule, after) =>
      GpuSearch.GpuSearchAnswers(LaunchOf(sha, input, run), max, requested, capacity, before, schedule, after);
  }

  /** Every job of a round was run to its end by its engine. */
  ghost predicate RoundRan<E>(sha: Hash, jobs: seq<SearchJob>, runs: seq<EngineRun>, answers: seq<Answer<E>>) {
    && |runs| == |answers| == |jobs|
    && forall i :: 0 <= i < |jobs| ==>
      && (runs[i].CpuRun? <==> jobs[i].backend.Cpu?)
      && answers[i].Success?
      && Ended(sha, jobs[i].input, runs[i], Bare(answers[i].value))
      && Fits(jobs[i].input, runs[i])
  }

  /** A round of CPU and GPU engines finds nothing exactly when nothing in its whole span solves, for every
      schedule of every engine and every arrival order; what it finds lies in the span and solves. */
  lemma RealRoundAnswers<E>(sha: Hash, input: SearchInput, jobs: seq<SearchJob>, runs: seq<EngineRun>,
                            answers: seq<Answer<E>>, order: seq<nat>, solution: Option<Candidate>)
    requires Consecutive(input, jobs) && RoundRan(sha, jobs, runs, answers) && Arrivals(order, |jobs|)
    requires Fastest(answers, order, |order|, solution)
    ensures solution == None <==> !SpanSolvable(sha, input, TotalAttempts(jobs))
    ensures solution.Some? ==> var found := solution.value.solution;
      && (exists k: nat :: k < TotalAttempts(jobs) && found.nonce == NonceAt(input, k))
      && found.hash == SolutionHash(sha, input, found.nonce) && Solves(sha, input, found.nonce)
  {
    hide Consecutive, Arrivals, Fastest, Answers, Ended, Fits, SpanSolvable;
    forall i | 0 <= i < |jobs| ensures Answers(sha, jobs[i].input, Bare(answers[i].value)) {
      EngineAnswers(sha, jobs[i].input, runs[i], Bare(answers[i].value));
    }
    RoundAnswers(sha, input, jobs, answers, order, solution);
  }

  // ----- many rounds

  /** The nonces the first r rounds search together. */
  function SpanBefore(rounds: seq<seq<SearchJob>>, r: nat): nat
    requires r <= |rounds|
  {
    if r == 0 then 0 else SpanBefore(rounds, r - 1) + TotalAttempts(rounds[r - 1])
  }

  /** The input of round r: the start nonce that the rounds before it have handed on. */
  function RoundInput(input: SearchInput, rounds: seq<seq<SearchJob>>, r: nat): SearchInput
    requires r <= |rounds|
  {
    input.(startNonce := NonceAt(input, SpanBefore(rounds, r)))
  }

  /** Handing on the next nonce of a round leads to the input of the round after it. */
  lemma NextRoundInput(input: SearchInput, rounds: seq<seq<SearchJob>>, r: nat)
    requires r < |rounds|
    ensures NonceAt(RoundInput(input, rounds, r), TotalAttempts(rounds[r]))
         == RoundInput(input, rounds, r + 1).startNonce
  {
    NonceSum(input, RoundInput(input, rounds, r), SpanBefore(rounds, r), TotalAttempts(rounds[r]));
  }

  /** A round's span is the part of the walk that follows the rounds before it. */
  lemma RoundNonce(sha: Hash, input: SearchInput, rounds: seq<seq<SearchJob>>, r: nat, k: nat)
    requires r < |rounds|
    ensures Solves(sha, RoundInput(input, rounds, r), NonceAt(RoundInput(input, rounds, r), k))
       <==> Solves(sha, input, NonceAt(input, SpanBefore(rounds, r) + k))
  {
    hide Solves, NonceAt;
    var next := RoundInput(input, rounds, r);
    NonceSum(input, next, SpanBefore(rounds, r), k);
    SameProof(sha, next, input, NonceAt(next, k));
  }

  /** Some nonce of the first n rounds' spans solves exactly when some round's span holds one. */
  lemma {:induction false} RoundsUnion(sha: Hash, input: SearchInput, rounds: seq<seq<SearchJob>>, n: nat)
    requires n <= |rounds|
    ensures SpanSolvable(sha, input, SpanBefore(rounds, n))
       <==> exists r :: 0 <= r < n && SpanSolvable(sha, RoundInput(input, rounds, r), TotalAttempts(rounds[r]))
  {
    hide Solves, NonceAt, RoundInput, TotalAttempts;
    if n > 0 {
      RoundsUnion(sha, input, rounds, n - 1);
      var before, last := SpanBefore(rounds, n - 1), RoundInput(input, rounds, n - 1);
      forall k: nat
        ensures Solves(sha, last, NonceAt(last, k)) <==> Solves(sha, input, NonceAt(input, before + k))
      {
        RoundNonce(sha, input, rounds, n - 1, k);
      }
      if SpanSolvable(sha, input, SpanBefore(rounds, n)) {
        var k: nat :| k < SpanBefore(rounds, n) && Solves(sha, input, NonceAt(input, k));
        if k >= before { assert Solves(sha, last, NonceAt(last, k - before)); }
      }
      if SpanSolvable(sha, last, TotalAttempts(rounds[n - 1])) {
        var k: nat :| k < TotalAttempts(rounds[n - 1]) && Solves(sha, last, NonceAt(last, k));
        assert Solves(sha, input, NonceAt(input, before + k));
      }
    }
  }

  /** One round, its engines' runs and what was collected from them. */
  datatype RoundRun<E> = RoundRun(
    runs: seq<EngineRun>, answers: seq<Answer<E>>, order: seq<nat>, solution: Option<Candidate>)

  /** Round r was built from the input handed to it and run by real engines. */
  ghost predicate Ran<E>(sha: Hash, input: SearchInput, rounds: seq<seq<SearchJob>>, r: nat, run: RoundRun<E>)
    requires r < |rounds|
  {
    && Consecutive(RoundInput(input, rounds, r), rounds[r])
    && RoundRan(sha, rounds[r], run.runs, run.answers)
    && Arrivals(run.order, |rounds[r]|)
    && Fastest(run.answers, run.order, |run.order|, run.solution)
  }

  /** Consecutive rounds that all find nothing have exhausted the union of their spans, and only then do they
      all find nothing; once that union is the whole nonce space, no nonce solves at all. */
  lemma RoundsExhaust<E>(sha: Hash, input: SearchInput, rounds: seq<seq<SearchJob>>, ran: seq<RoundRun<E>>)
    requires |ran| == |rounds| && forall r :: 0 <= r < |rounds| ==> Ran(sha, input, rounds, r, ran[r])
    ensures var span := SpanBefore(rounds, |rounds|);
      var nothing := forall r :: 0 <= r < |ran| ==> ran[r].solution == None;
      && (nothing <==> !SpanSolvable(sha, input, span))
      && (nothing && span >= TWO_64 ==> forall nonce: u64 :: !Solves(sha, input, nonce))
  {
    hide Solves, NonceAt, RoundInput, TotalAttempts, Consecutive, RoundRan, Arrivals, Fastest, SpanSolvable, SpanBefore;
    forall r | 0 <= r < |rounds|
      ensures ran[r].solution == None <==> !SpanSolvable(sha, RoundInput(input, rounds, r), TotalAttempts(rounds[r]))
    {
      var run := ran[r];
      assert Ran(sha, input, rounds, r, run);
      RealRoundAnswers(sha, RoundInput(input, rounds, r), rounds[r], run.runs, run.answers, run.order, run.solution);
    }
    RoundsUnion(sha, input, rounds, |rounds|);
    if SpanBefore(rounds, |rounds|) >= TWO_64 && !SpanSolvable(sha, input, SpanBefore(rounds, |rounds|)) {
      forall nonce: u64 ensures !Solves(sha, input, nonce) {
        WholeSpace(sha, input, SpanBefore(rounds, |rounds|), nonce);
      }
    }
  }

  /** A span of 2^64 nonces or more is the whole space. */
  lemma WholeSpace(sha: Hash, input: SearchInput, total: nat, nonce: u64)
    requires total >= TWO_64
    ensures Solves(sha, input, nonce) ==> SpanSolvable(sha, input, total)
  {
    hide Solves;
    var k := (nonce - input.startNonce) % TWO_64;
    assert NonceAt(input, k) == nonce;
  }
}
