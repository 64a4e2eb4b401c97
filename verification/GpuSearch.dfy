/** The GPU search: the host's launch geometry, and the kernel's work items as interleaved steps that
    race for one result with a compare-and-swap. */
module GpuSearch {
  import opened Ints
  import opened Powers
  import opened Bytes
  import opened Wrappers
  import opened Preimages
  import opened Engine
  import opened Sums

  // ----- launch geometry

  ghost predicate IsPowerOfTwo(n: nat) {
    exists e: nat :: n == Pow(2, e)
  }

  /** `leading_zeros` of a non-zero 64-bit value. */
  function LeadingZeros64(v: u64): (n: nat)
    requires v > 0
    ensures n == 63 - Log2(v)
  {
    Log2Fits(v);
    63 - Log2(v)
  }

  lemma Log2Fits(v: u64)
    requires v > 0
    ensures Log2(v) <= 63
  {
    hide Pow, Log2;
    Log2Bounds(v);
    TwoTo64();
    if Log2(v) >= 64 { PowMonotone(2, 64, Log2(v)); }
  }

  lemma TwoTo64()
    ensures Pow(2, 64) == TWO_64
  {
    assert Pow(256, 8) == TWO_64;
    Pow256IsPow2(8);
  }

  /** The largest power of two that is at most `value`. */
  function FloorPowerOfTwo(value: u64): (r: u64)
    ensures value >= 1 ==> IsPowerOfTwo(r) && r <= value < 2 * r
    ensures value == 0 ==> r == 0
  {
    if value <= 1 then
      assert Pow(2, 0) == 1;
      value
    else
      Log2Bounds(value);
      Pow(2, 63 - LeadingZeros64(value))
  }

  /** A power of two between r and v, for the r below v and above v / 2, is r. */
  lemma PowersOfTwoApart(r: nat, q: nat, v: nat)
    requires IsPowerOfTwo(r) && IsPowerOfTwo(q) && r <= v < 2 * r && q <= v
    ensures q <= r
  {
    var e: nat :| r == Pow(2, e);
    var f: nat :| q == Pow(2, f);
    if q > r {
      if f <= e { PowMonotone(2, f, e); } else { Pow2Strict(e, f); }
    }
  }

  function ResolveLocalWorkSize(maxWorkGroupSize: u64, requested: Option<u64>, capacity: u64): Option<u64> {
    var upperBound := Min(maxWorkGroupSize, Max(capacity, 1));
    if upperBound < 2 then None
    else
      var preferred: u64 :=
        match requested
        case Some(size) => size
        case None =>
          if upperBound >= 256 then 256
          else if upperBound >= 128 then 128
          else if upperBound >= 64 then 64
          else if upperBound >= 32 then 32
          else upperBound;
      var tuned := FloorPowerOfTwo(Min(preferred, upperBound));
      if tuned >= 2 then Some(tuned) else None
  }

  /** A work-group size is chosen exactly when the limit (device, capacity, and the request or 256) is at
      least 2, and it is then the largest power of two within that limit. */
  lemma LocalWorkSizeIsLargest(maxWorkGroupSize: u64, requested: Option<u64>, capacity: u64)
    ensures var local := ResolveLocalWorkSize(maxWorkGroupSize, requested, capacity);
      var limit: nat := Min(Min(maxWorkGroupSize, Max(capacity, 1)), if requested.Some? then requested.value else 256);
      && (local.Some? <==> limit >= 2)
      && (local.Some? ==>
        && IsPowerOfTwo(local.value) && 2 <= local.value <= limit
        && forall q: nat :: IsPowerOfTwo(q) && q <= limit ==> q <= local.value)
  {
    var local := ResolveLocalWorkSize(maxWorkGroupSize, requested, capacity);
    var limit: nat := Min(Min(maxWorkGroupSize, Max(capacity, 1)), if requested.Some? then requested.value else 256);
    assert Pow(2, 5) == 32 && Pow(2, 6) == 64 && Pow(2, 7) == 128 && Pow(2, 8) == 256;
    if local.Some? {
      forall q: nat | IsPowerOfTwo(q) && q <= limit ensures q <= local.value {
        PowersOfTwoApart(local.value, q, limit);
      }
    }
  }

  /** The least multiple of `local` that is at least n. */
  function RoundUp(n: nat, local: nat): (m: nat)
    requires local >= 1
    ensures n <= m < n + local && m % local == 0
  {
    RoundUpBounds(n, local);
    (n + local - 1) / local * local
  }

  lemma RoundUpBounds(n: nat, local: nat)
    requires local >= 1
    ensures var m := (n + local - 1) / local * local; n <= m < n + local && m % local == 0
  {
    var k := n + local - 1;
    assert k == k / local * local + k % local;
    DivUnique(k / local * local, local, k / local, 0);
  }

  lemma RoundUpIsLeast(n: nat, local: nat, k: nat)
    requires local >= 1 && n <= k * local
    ensures RoundUp(n, local) <= k * local
  {
    var q := (n + local - 1) / local;
    DivAdjoint(n + local - 1, local, k + 1);
    assert (k + 1) * local == k * local + local;
    if q > k { MulMonotone(k + 1, q, local); }
    MulMonotone(q, k, local);
  }

  /** `div_ceil(local) * local` in wrapping usize arithmetic. */
  function AlignGlobalWorkSize(value: u64, local: Option<u64>): u64 {
    var n := Max(value, 1);
    match local
    case Some(size) => if size > 1 then RoundUp(n, size) % TWO_64 else n
    case None => n
  }

  /** The launch covers the window with whole work groups exactly when the rounded size fits in u64; the
      rounding is the least that does. */
  lemma AlignedLaunchCovers(value: u64, local: Option<u64>)
    ensures var size := if local.Some? && local.value > 1 then local.value else 1;
      var global := AlignGlobalWorkSize(value, local);
      && (global >= Max(value, 1) <==> RoundUp(Max(value, 1), size) <= U64_MAX)
      && (global >= Max(value, 1) ==> global == RoundUp(Max(value, 1), size))
      && forall k: nat :: Max(value, 1) <= k * size ==> RoundUp(Max(value, 1), size) <= k * size
  {
    var size := if local.Some? && local.value > 1 then local.value else 1;
    forall k: nat | Max(value, 1) <= k * size ensures RoundUp(Max(value, 1), size) <= k * size {
      RoundUpIsLeast(Max(value, 1), size, k);
    }
  }

  // ----- the kernel

  /** One kernel launch: the search and the number of work items. */
  datatype Launch = Launch(sha: Hash, input: SearchInput, items: nat)

  /** Where a work item stands. */
  datatype Item =
    | Entering
    | Digesting
    | Racing(digest: Bytes32)
    | StoringNonce(digest: Bytes32)
    | StoringHash(digest: Bytes32, written: nat)
    | Won
    | Left

  /** The found_* buffers and the items. */
  datatype State = State(items: seq<Item>, flag: bool, nonce: u64, hash: Bytes32)

  /** The host has reset the flag; the other two buffers hold anything. */
  ghost predicate Initial(p: Launch, s: State) {
    && |s.items| == p.items && !s.flag
    && forall i :: 0 <= i < p.items ==> s.items[i] == Entering
  }

  datatype Action =
    | Enter(i: nat, sawFlag: bool)
    | ComputeDigest(i: nat)
    | CompareAndSwap(i: nat)
    | StoreNonce(i: nat)
    | StoreByte(i: nat)

  /** The plain read of the flag may miss a value that was set, but never sees one that was not. */
  predicate Enabled(s: State, a: Action) {
    a.i < |s.items| &&
    match a
    case Enter(i, sawFlag) => s.items[i].Entering? && (sawFlag ==> s.flag)
    case ComputeDigest(i) => s.items[i].Digesting?
    case CompareAndSwap(i) => s.items[i].Racing?
    case StoreNonce(i) => s.items[i].StoringNonce?
    case StoreByte(i) => s.items[i].StoringHash? && s.items[i].written < 32
  }

  function Digested(p: Launch, i: nat): Item {
    var digest := SolutionHash(p.sha, p.input, NonceAt(p.input, i));
    if LexLess(digest, p.input.target) then Racing(digest) else Left
  }

  function Apply(p: Launch, s: State, a: Action): (t: State)
    requires Enabled(s, a)
    ensures |t.items| == |s.items|
  {
    match a
    case Enter(i, sawFlag) =>
      s.(items := s.items[i := if i >= p.input.maxAttempts || sawFlag then Left else Digesting])
    case ComputeDigest(i) => s.(items := s.items[i := Digested(p, i)])
    case CompareAndSwap(i) =>
      if s.flag then s.(items := s.items[i := Left])
      else s.(items := s.items[i := StoringNonce(s.items[i].digest)], flag := true)
    case StoreNonce(i) =>
      s.(items := s.items[i := StoringHash(s.items[i].digest, 0)], nonce := NonceAt(p.input, i))
    case StoreByte(i) =>
      var k := s.items[i].written;
      s.(hash := s.hash[k := s.items[i].digest[k]],
         items := s.items[i := if k + 1 == 32 then Won else StoringHash(s.items[i].digest, k + 1)])
  }

  ghost predicate Steps(p: Launch, s: State, schedule: seq<Action>, t: State)
    decreases |schedule|
  {
    if schedule == [] then s == t
    else Enabled(s, schedule[0]) && Steps(p, Apply(p, s, schedule[0]), schedule[1..], t)
  }

  predicate Terminated(item: Item) { item.Won? || item.Left? }

  /** What the host reads back once the queue has finished. */
  function ReadBack(p: Launch, s: State): Option<FoundSolution> {
    if s.flag then Some(FoundSolution(s.nonce, s.hash, p.input.maxAttempts)) else None
  }

  // ----- the invariant

  predicate Writer(item: Item) { item.StoringNonce? || item.StoringHash? || item.Won? }

  predicate Solver(p: Launch, i: nat) {
    i < p.input.maxAttempts && Solves(p.sha, p.input, NonceAt(p.input, i))
  }

  function DigestOf(p: Launch, i: nat): Bytes32 { SolutionHash(p.sha, p.input, NonceAt(p.input, i)) }

  /** What item i has done so far, and what the buffers say if it is the writer. */
  predicate ItemOk(p: Launch, s: State, i: nat)
    requires i < |s.items|
  {
    match s.items[i]
    case Entering => true
    case Digesting => i < p.input.maxAttempts
    case Racing(digest) => Solver(p, i) && digest == DigestOf(p, i)
    case StoringNonce(digest) => Solver(p, i) && digest == DigestOf(p, i)
    case StoringHash(digest, k) =>
      && Solver(p, i) && digest == DigestOf(p, i) && k < 32
      && s.nonce == NonceAt(p.input, i) && s.hash[..k] == digest[..k]
    case Won => Solver(p, i) && s.nonce == NonceAt(p.input, i) && s.hash == DigestOf(p, i)
    case Left => s.flag || !Solver(p, i)
  }

  ghost predicate Inv(p: Launch, s: State) {
    && |s.items| == p.items
    && (forall i :: 0 <= i < p.items ==> ItemOk(p, s, i))
    // exactly one writer once the flag is set, none before
    && (forall i, j :: 0 <= i < p.items && 0 <= j < p.items && Writer(s.items[i]) && Writer(s.items[j]) ==> i == j)
    && (s.flag <==> exists i :: 0 <= i < p.items && Writer(s.items[i]))
  }

  lemma EnterPreserves(p: Launch, s: State, i: nat, sawFlag: bool)
    requires Inv(p, s) && Enabled(s, Enter(i, sawFlag))
    ensures Inv(p, Apply(p, s, Enter(i, sawFlag)))
  {
    hide Solves, DigestOf;
    OtherItems(p, s, Apply(p, s, Enter(i, sawFlag)), i);
  }

  lemma DigestPreserves(p: Launch, s: State, i: nat)
    requires Inv(p, s) && Enabled(s, ComputeDigest(i))
    ensures Inv(p, Apply(p, s, ComputeDigest(i)))
  {
    hide NonceAt, SolutionHash;
    assert ItemOk(p, s, i);
    LexIsNumeric(DigestOf(p, i), p.input.target);
    OtherItems(p, s, Apply(p, s, ComputeDigest(i)), i);
  }

  /** A move that neither makes nor unmakes a writer and leaves the buffers alone. */
  lemma OtherItems(p: Launch, s: State, t: State, i: nat)
    requires Inv(p, s) && i < p.items && |t.items| == p.items && t == s.(items := s.items[i := t.items[i]])
    requires !Writer(s.items[i]) && !Writer(t.items[i]) && ItemOk(p, t, i)
    ensures Inv(p, t)
  {
    hide Solver, DigestOf, NonceAt;
    forall j | 0 <= j < p.items ensures ItemOk(p, t, j) { assert ItemOk(p, s, j); }
    if s.flag {
      var j :| 0 <= j < p.items && Writer(s.items[j]);
      assert Writer(t.items[j]);
    }
  }

  lemma SwapPreserves(p: Launch, s: State, i: nat)
    requires Inv(p, s) && Enabled(s, CompareAndSwap(i))
    ensures Inv(p, Apply(p, s, CompareAndSwap(i)))
  {
    hide Solver, DigestOf, NonceAt;
    var t := Apply(p, s, CompareAndSwap(i));
    assert ItemOk(p, s, i);
    if s.flag {
      OtherItems(p, s, t, i);
    } else {
      forall j | 0 <= j < p.items ensures ItemOk(p, t, j) { assert ItemOk(p, s, j); }
      assert Writer(t.items[i]);
    }
  }

  /** The only writer moves on; nobody else's claims mention the buffers. */
  lemma WriterPreserves(p: Launch, s: State, t: State, i: nat)
    requires Inv(p, s) && i < p.items && |t.items| == p.items && t.items == s.items[i := t.items[i]] && t.flag == s.flag
    requires Writer(s.items[i]) && Writer(t.items[i]) && ItemOk(p, t, i)
    ensures Inv(p, t)
  {
    hide Solver, DigestOf, NonceAt;
    forall j | 0 <= j < p.items ensures ItemOk(p, t, j) {
      if j != i { assert ItemOk(p, s, j) && !Writer(s.items[j]); }
    }
    assert Writer(t.items[i]);
  }

  lemma StepInv(p: Launch, s: State, a: Action)
    requires Inv(p, s) && Enabled(s, a)
    ensures Inv(p, Apply(p, s, a))
  {
    hide Inv, Solver, DigestOf, NonceAt;
    match a
    case Enter(i, sawFlag) => EnterPreserves(p, s, i, sawFlag);
    case ComputeDigest(i) => DigestPreserves(p, s, i);
    case CompareAndSwap(i) => SwapPreserves(p, s, i);
    case StoreNonce(i) =>
      ItemHolds(p, s, i);
      WriterPreserves(p, s, Apply(p, s, a), i);
    case StoreByte(i) =>
      ItemHolds(p, s, i);
      var k := s.items[i].written;
      assert s.hash[k := s.items[i].digest[k]][..k + 1] == s.hash[..k] + [s.items[i].digest[k]];
      assert s.items[i].digest[..k + 1] == s.items[i].digest[..k] + [s.items[i].digest[k]];
      WriterPreserves(p, s, Apply(p, s, a), i);
  }

  lemma ItemHolds(p: Launch, s: State, i: nat)
    requires Inv(p, s) && i < |s.items|
    ensures |s.items| == p.items && ItemOk(p, s, i)
  {}

  lemma {:induction false} StepsInv(p: Launch, s: State, schedule: seq<Action>, t: State)
    requires Inv(p, s) && Steps(p, s, schedule, t)
    ensures Inv(p, t)
    decreases |schedule|
  {
    hide Inv, Apply, Enabled;
    if schedule != [] {
      StepInv(p, s, schedule[0]);
      StepsInv(p, Apply(p, s, schedule[0]), schedule[1..], t);
    }
  }

  lemma InitialInv(p: Launch, s: State)
    requires Initial(p, s)
    ensures Inv(p, s)
  {}

  // ----- what a launch finds

  /** At any moment of any schedule at most one work item has won the race, and one has exactly when the
      flag is set. */
  lemma SingleWriter(p: Launch, s: State, schedule: seq<Action>, t: State)
    requires Initial(p, s) && Steps(p, s, schedule, t)
    ensures |t.items| == p.items
    ensures forall i, j :: 0 <= i < p.items && 0 <= j < p.items && Writer(t.items[i]) && Writer(t.items[j]) ==> i == j
    ensures t.flag <==> exists i :: 0 <= i < p.items && Writer(t.items[i])
  {
    hide Steps;
    InitialInv(p, s);
    StepsInv(p, s, schedule, t);
  }

  /** For every interleaving: a finished launch that covers the window reports a result exactly when some
      nonce of the window solves, and the nonce and the hash it reports belong together. */
  lemma LaunchAnswers(p: Launch, s: State, schedule: seq<Action>, t: State)
    requires Initial(p, s) && Steps(p, s, schedule, t) && forall item :: item in t.items ==> Terminated(item)
    requires p.items >= p.input.maxAttempts
    ensures Answers(p.sha, p.input, ReadBack(p, t))
    ensures ReadBack(p, t) == None <==> !WindowSolvable(p.sha, p.input)
    ensures ReadBack(p, t).Some? ==> ReadBack(p, t).value.attempts == p.input.maxAttempts
  {
    hide Steps, Solves, SolutionHash, NonceAt;
    InitialInv(p, s);
    StepsInv(p, s, schedule, t);
    if t.flag {
      var i: nat :| i < p.items && Writer(t.items[i]);
      assert ItemOk(p, t, i) && t.items[i] in t.items;
    } else {
      forall k: nat | k < p.input.maxAttempts ensures !Solves(p.sha, p.input, NonceAt(p.input, k)) {
        assert ItemOk(p, t, k) && t.items[k] in t.items;
      }
    }
  }

  /** The search as the host runs it: whatever work-group size was chosen, a launch aligned to it answers
      for the whole window as long as the aligned size fits in u64. */
  lemma GpuSearchAnswers(p: Launch, maxWorkGroupSize: u64, requested: Option<u64>, capacity: u64,
                         s: State, schedule: seq<Action>, t: State)
    requires var local := ResolveLocalWorkSize(maxWorkGroupSize, requested, capacity);
      && p.items == AlignGlobalWorkSize(p.input.maxAttempts, local)
      && RoundUp(Max(p.input.maxAttempts, 1), if local.Some? then local.value else 1) <= U64_MAX
    requires Initial(p, s) && Steps(p, s, schedule, t) && forall item :: item in t.items ==> Terminated(item)
    ensures Answers(p.sha, p.input, ReadBack(p, t))
    ensures ReadBack(p, t) == None <==> !WindowSolvable(p.sha, p.input)
  {
    hide Steps, Answers, ReadBack, WindowSolvable, FloorPowerOfTwo;
    LocalWorkSizeIsLargest(maxWorkGroupSize, requested, capacity);
    AlignedLaunchCovers(p.input.maxAttempts, ResolveLocalWorkSize(maxWorkGroupSize, requested, capacity));
    LaunchAnswers(p, s, schedule, t);
  }

  // ----- every launch ends

  /** The steps an item may still take. */
  function Rank(item: Item): nat {
    match item
    case Entering => 37
    case Digesting => 36
    case Racing(_) => 35
    case StoringNonce(_) => 34
    case StoringHash(_, k) => if k < 32 then 33 - k else 1
    case Won => 0
    case Left => 0
  }

  /** A step lowers its own item's rank and leaves the others alone. */
  lemma StepDecreases(p: Launch, s: State, a: Action)
    requires Enabled(s, a)
    ensures a.i < |s.items| == |Apply(p, s, a).items|
    ensures Apply(p, s, a).items == s.items[a.i := Apply(p, s, a).items[a.i]]
    ensures Rank(Apply(p, s, a).items[a.i]) < Rank(s.items[a.i])
  {
    hide SolutionHash, NonceAt, LexLess;
  }

  /** The steps of one item in a schedule. */
  function StepsOf(i: nat, schedule: seq<Action>): nat
    decreases |schedule|
  {
    if schedule == [] then 0 else (if schedule[0].i == i then 1 else 0) + StepsOf(i, schedule[1..])
  }

  lemma {:induction false} ItemSteps(p: Launch, s: State, schedule: seq<Action>, t: State, i: nat)
    requires Steps(p, s, schedule, t) && i < |s.items|
    ensures |t.items| == |s.items| && StepsOf(i, schedule) + Rank(t.items[i]) <= Rank(s.items[i])
    decreases |schedule|
  {
    hide Apply, Enabled, Rank;
    if schedule != [] {
      StepDecreases(p, s, schedule[0]);
      ItemSteps(p, Apply(p, s, schedule[0]), schedule[1..], t, i);
    }
  }

  lemma {:induction false} StepsBounded(p: Launch, s: State, schedule: seq<Action>, t: State)
    requires Steps(p, s, schedule, t)
    ensures |schedule| + Total(Rank, t.items) <= Total(Rank, s.items)
    decreases |schedule|
  {
    hide Apply, Enabled, Rank;
    if schedule != [] {
      var a, m := schedule[0], Apply(p, s, schedule[0]);
      StepDecreases(p, s, a);
      TotalUpdate(Rank, s.items, a.i, m.items[a.i]);
      StepsBounded(p, m, schedule[1..], t);
    }
  }

  /** No work item of a launch takes more than 37 steps, so no schedule is longer than 37 per item. */
  lemma SchedulesEnd(p: Launch, s: State, schedule: seq<Action>, t: State)
    requires Initial(p, s) && Steps(p, s, schedule, t)
    ensures forall i :: 0 <= i < p.items ==> StepsOf(i, schedule) <= 37
    ensures |schedule| <= 37 * p.items
  {
    hide Steps, Total;
    forall i | 0 <= i < p.items ensures StepsOf(i, schedule) <= 37 { ItemSteps(p, s, schedule, t, i); }
    StepsBounded(p, s, schedule, t);
    TotalAtMost(Rank, s.items, 37);
  }

  /** Whatever the others do, an item that has not terminated can move. */
  lemma LaunchProgresses(p: Launch, s: State, i: nat) returns (a: Action)
    requires Inv(p, s) && i < p.items && !Terminated(s.items[i])
    ensures a.i == i && Enabled(s, a)
  {
    hide Solver, DigestOf, NonceAt;
    assert ItemOk(p, s, i);
    a := match s.items[i]
      case Entering => Enter(i, false)
      case Digesting => ComputeDigest(i)
      case Racing(_) => CompareAndSwap(i)
      case StoringNonce(_) => StoreNonce(i)
      case _ => StoreByte(i);
  }
}
