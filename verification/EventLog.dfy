/** The event stream as an account of the run. */
module EventLog {
  import opened Ledger
  import opened Accounts

  function Solved(e: Event): nat { if e.BlockSolved? then 1 else 0 }

  function StaleRotated(e: Event): nat { if e.BlockStaleRotated? then 1 else 0 }

  function GrossReward(e: Event): nat { if e.BlockSolved? then e.reward else 0 }

  function MinerShare(e: Event): nat { if e.BlockSolved? then e.minerReward else 0 }

  function TreasuryShare(e: Event): nat { if e.BlockSolved? then e.treasuryFee else 0 }

  function SubmitFee(e: Event): nat { if e.BlockSolved? then e.submitFeeLamports else 0 }

  /** Events other than settlements and rotations. */
  predicate Quiet(events: seq<Event>) {
    forall e :: e in events ==> !e.BlockSolved? && !e.BlockStaleRotated?
  }

  /** The blocks one miner has solved and the rewards paid for them. */
  datatype Winnings = Winnings(blocks: nat, rewards: nat)

  function WonBy(events: seq<Event>, miner: Pubkey): Winnings {
    if events == [] then Winnings(0, 0)
    else
      var w, e := WonBy(events[..|events| - 1], miner), events[|events| - 1];
      if e.BlockSolved? && e.winner == miner then Winnings(w.blocks + 1, w.rewards + e.minerReward) else w
  }

  lemma WonBySnoc(events: seq<Event>, e: Event, miner: Pubkey)
    ensures WonBy(events + [e], miner) ==
            var w := WonBy(events, miner);
            if e.BlockSolved? && e.winner == miner then Winnings(w.blocks + 1, w.rewards + e.minerReward) else w
  {
    assert (events + [e])[..|events|] == events;
  }

  /** Events that report no win change nobody's winnings. */
  lemma {:induction false} WonByOthers(a: seq<Event>, b: seq<Event>, miner: Pubkey)
    requires forall e :: e in b ==> !e.BlockSolved?
    ensures WonBy(a + b, miner) == WonBy(a, miner)
  {
    if b == [] {
      assert a + b == a;
    } else {
      var p, e := b[..|b| - 1], b[|b| - 1];
      assert a + b == (a + p) + [e];
      WonByOthers(a, p, miner);
      WonBySnoc(a + p, e, miner);
    }
  }

  /** Opened blocks carry strictly increasing numbers, none above `limit`. */
  predicate OpenedAscend(events: seq<Event>, limit: nat) {
    && (forall i :: 0 <= i < |events| && events[i].BlockOpened? ==> events[i].blockNumber <= limit)
    && (forall i, j :: 0 <= i < j < |events| && events[i].BlockOpened? && events[j].BlockOpened?
          ==> events[i].blockNumber < events[j].blockNumber)
  }

  lemma OpenedAscendExtends(a: seq<Event>, b: seq<Event>, limit: nat)
    requires OpenedAscend(a, limit)
    requires forall i :: 0 <= i < |b| && b[i].BlockOpened? ==> b[i].blockNumber == limit + 1
    requires forall i, j :: 0 <= i < j < |b| ==> !(b[i].BlockOpened? && b[j].BlockOpened?)
    ensures OpenedAscend(a + b, limit + 1)
  {}
}
