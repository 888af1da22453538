/**
  Counting over the proposal list: the total number of votes cast, and the
  winner scan `tallyVotes` runs once voting has closed.
 */
module Tally {
  import opened VotingTypes

  /** The sum of every proposal's vote count. */
  function TotalVotes(ps: seq<Proposal>): nat
  {
    if |ps| == 0 then 0 else TotalVotes(ps[..|ps| - 1]) + ps[|ps| - 1].voteCount
  }

  /** `w` is a proposal with the highest count, and no earlier proposal reaches that count. */
  predicate IsFirstMaximum(ps: seq<Proposal>, w: nat)
  {
    && w < |ps|
    && (forall i :: 0 <= i < |ps| ==> ps[i].voteCount <= ps[w].voteCount)
    && (forall i :: 0 <= i < w ==> ps[i].voteCount < ps[w].voteCount)
  }

  /**
    The state `(bestIndex, bestCount)` of the tally loop after it has visited
    every proposal of `ps` in ascending index order, starting from `(0, 0)` and
    moving only on a strictly greater count.
   */
  function Scan(ps: seq<Proposal>): (best: (nat, nat))
    ensures |ps| == 0 ==> best == (0, 0)
    ensures |ps| > 0 ==> best.0 < |ps| && best.1 == ps[best.0].voteCount
    ensures forall i :: 0 <= i < |ps| ==> ps[i].voteCount <= best.1
    ensures forall i :: 0 <= i < best.0 ==> ps[i].voteCount < best.1
    decreases |ps|
  {
    if |ps| == 0 then (0, 0)
    else
      var before := Scan(ps[..|ps| - 1]);
      if ps[|ps| - 1].voteCount > before.1 then (|ps| - 1, ps[|ps| - 1].voteCount) else before
  }

  /** The index `tallyVotes` stores as `winningProposalID`. */
  function WinningIndex(ps: seq<Proposal>): (w: nat)
    ensures |ps| == 0 ==> w == 0
    ensures |ps| > 0 ==> IsFirstMaximum(ps, w)
  {
    Scan(ps).0
  }

  /** There is only one first maximum, so the scan's answer is the only one possible. */
  lemma FirstMaximumUnique(ps: seq<Proposal>, a: nat, b: nat)
    requires IsFirstMaximum(ps, a) && IsFirstMaximum(ps, b)
    ensures a == b
  {
    var countA, countB := ps[a].voteCount, ps[b].voteCount;
    assert countA <= countB && countB <= countA;
  }

  /** A proposal with no fewer votes than any other, and strictly more than every earlier one, is the winner. */
  lemma WinningIndexIsTheFirstMaximum(ps: seq<Proposal>, w: nat)
    requires IsFirstMaximum(ps, w)
    ensures WinningIndex(ps) == w
  {
  }

  /** Appending a proposal adds its count to the total. */
  lemma {:induction false} TotalVotesAppend(ps: seq<Proposal>, p: Proposal)
    ensures TotalVotes(ps + [p]) == TotalVotes(ps) + p.voteCount
  {
  }

  /** Raising one proposal's count by one, and touching no other count, raises the total by one. */
  lemma {:induction false} TotalVotesIncrement(ps: seq<Proposal>, qs: seq<Proposal>, id: nat)
    requires |qs| == |ps| && id < |ps|
    requires qs[id].voteCount == ps[id].voteCount + 1
    requires forall j :: 0 <= j < |ps| && j != id ==> qs[j].voteCount == ps[j].voteCount
    ensures TotalVotes(qs) == TotalVotes(ps) + 1
    decreases |ps|
  {
    var n := |ps| - 1;
    if id == n {
      TotalVotesSameCounts(ps[..n], qs[..n]);
    } else {
      TotalVotesIncrement(ps[..n], qs[..n], id);
    }
  }

  /** Lists with the same counts position by position have the same total. */
  lemma {:induction false} TotalVotesSameCounts(ps: seq<Proposal>, qs: seq<Proposal>)
    requires |qs| == |ps|
    requires forall j :: 0 <= j < |ps| ==> qs[j].voteCount == ps[j].voteCount
    ensures TotalVotes(qs) == TotalVotes(ps)
    decreases |ps|
  {
    if |ps| > 0 {
      TotalVotesSameCounts(ps[..|ps| - 1], qs[..|qs| - 1]);
    }
  }
}
