/** A search beyond the covering bound, and the wrong answer it gives. */
module CpuOverflow {
  import opened Ints
  import opened Powers
  import opened Bytes
  import opened Wrappers
  import opened Preimages
  import opened Engine
  import opened CpuSearch
  import opened CpuSearchProof

  function Ones(): (s: Bytes32)
    ensures forall i :: 0 <= i < 32 ==> s[i] == 0xff
  {
    seq(32, _ => 0xff)
  }

  /** A hash that is zero on the proof of nonce 0 and as large as possible on everything else. */
  function OnlyFirst(p: seq<byte>): Bytes32 {
    if p == ProofPreimage(ZERO_32, ZERO_32, 0) then ZERO_32 else Ones()
  }

  /** Two threads over the largest window a u64 can ask for. */
  function LargestWindow(): (p: Search)
    ensures WellFormed(p)
  {
    Search(OnlyFirst, SearchInput(ZERO_32, ZERO_32, Ones(), 0, U64_MAX), 2)
  }

  lemma ProofsDiffer(m: u64, n: u64)
    requires m != n
    ensures ProofPreimage(ZERO_32, ZERO_32, m) != ProofPreimage(ZERO_32, ZERO_32, n)
  {
    hide LeEncode, LeVal;
    LeRoundTrip64(m);
    LeRoundTrip64(n);
    assert ProofPreimage(ZERO_32, ZERO_32, m)[64..] == Le8(m);
    assert ProofPreimage(ZERO_32, ZERO_32, n)[64..] == Le8(n);
  }

  lemma OnlyFirstSolves(k: nat)
    requires k < TWO_64
    ensures var p := LargestWindow(); Solves(p.sha, p.input, NonceAt(p.input, k)) <==> k == 0
  {
    hide ProofPreimage, Val;
    var p := LargestWindow();
    assert NonceAt(p.input, k) == k;
    ValZeros(ZERO_32);
    ValOnes(Ones());
    LargeEnough();
    if k != 0 { ProofsDiffer(k, 0); }
  }

  lemma LargeEnough()
    ensures Pow(256, 32) > 1
  {
    PowMonotone(256, 1, 32);
    assert Pow(256, 1) == 256;
  }

  /** The search runs to its end and returns nothing, although its first nonce solves. */
  lemma LargestWindowMisanswers() returns (schedule: seq<Action>)
    ensures var p := LargestWindow();
      && Execute(p, schedule).Some? && Execute(p, schedule).value.collector.Returned?
      && Execute(p, schedule).value.solution == None
      && Solves(p.sha, p.input, p.input.startNonce)
      && !Answers(p.sha, p.input, Execute(p, schedule).value.solution)
  {
    hide Solves, Answers, WindowSolvable, Enabled, Apply, NonceAt;
    var p := LargestWindow();
    assert Execute(p, []) == Some(Init(p));
    hide Execute;
    schedule := SearchCanReturn(p, []);
    forall k: nat | k < p.input.maxAttempts ensures Solves(p.sha, p.input, NonceAt(p.input, k)) <==> k == 0 {
      OnlyFirstSolves(k);
    }
    OverflowMisanswers(p, schedule);
    StartNonce(p.input);
  }

  lemma StartNonce(input: SearchInput)
    ensures NonceAt(input, 0) == input.startNonce
  {}
}
