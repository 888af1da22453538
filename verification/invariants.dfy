/**
  What holds of every storage the contract can reach from deployment: the
  registry and the log agree, proposal 0 is GENESIS and every proposal has a
  description, each proposal's count is the number of voters who chose it,
  and once tallied the stored winner is the first proposal with the top count.
 */
module Invariants {
  import opened VotingTypes
  import opened Tally
  import opened Voting
  import opened Ledger

  /** Voter records are consistent with themselves and with the proposal list. */
  ghost predicate RegistryValid(s: State)
  {
    && (forall a :: VoterOf(s, a).hasVoted ==> VoterOf(s, a).isRegistered)
    && (forall a :: VoterOf(s, a).hasVoted ==> VoterOf(s, a).votedProposalId < |s.proposals|)
    && (forall a :: !VoterOf(s, a).hasVoted ==> VoterOf(s, a).votedProposalId == 0)
  }

  /** The event log tells who is registered and who voted for what. */
  ghost predicate LogMatchesRegistry(s: State)
  {
    && (forall a :: VoterOf(s, a).isRegistered <==> VoterRegistered(a) in s.events)
    && (forall a :: VoterOf(s, a).hasVoted ==> Voted(a, VoterOf(s, a).votedProposalId) in s.events)
    && (forall a, id :: Voted(a, id) in s.events ==> VoterOf(s, a).hasVoted && VoterOf(s, a).votedProposalId == id)
  }

  /** The proposal list exists from the opening of registration, starts with GENESIS, has no empty entry. */
  ghost predicate BookValid(s: State)
  {
    && (s.status == RegisteringVoters <==> |s.proposals| == 0)
    && (|s.proposals| > 0 ==> s.proposals[0].description == Genesis.description)
    && (forall i :: 0 <= i < |s.proposals| ==> s.proposals[i].description != "")
    && (forall id: nat :: ProposalRegistered(id) in s.events ==> 1 <= id < |s.proposals|)
    && (forall id: nat :: 1 <= id < |s.proposals| ==> ProposalRegistered(id) in s.events)
    && ProposalIdsIncreasing(s.events)
  }

  /** Proposal registrations appear in the log with strictly increasing indices. */
  ghost predicate ProposalIdsIncreasing(log: seq<Event>)
  {
    forall i, j :: 0 <= i < j < |log| && log[i].ProposalRegistered? && log[j].ProposalRegistered? ==>
      log[i].proposalId < log[j].proposalId
  }

  /**
    Every vote is counted once, on the proposal its voter chose, and nothing
    is counted before the session opens.
   */
  ghost predicate CountsValid(s: State)
  {
    && TotalVotes(s.proposals) == |VotedSet(s)|
    && (forall i :: 0 <= i < |s.proposals| ==> s.proposals[i].voteCount == |VotersFor(s, i)|)
    && (Rank(s.status) < 3 ==> VotedSet(s) == {})
    && (Rank(s.status) < 3 ==> forall i :: 0 <= i < |s.proposals| ==> s.proposals[i].voteCount == 0)
  }

  /** The winner is unset (0) until the tally, and afterwards is the first top-count proposal. */
  ghost predicate TallyValid(s: State)
  {
    && (s.status == VotesTallied ==> IsFirstMaximum(s.proposals, s.winningProposalID))
    && (s.status != VotesTallied ==> s.winningProposalID == 0)
  }

  ghost predicate Valid(s: State)
  {
    RegistryValid(s) && LogMatchesRegistry(s) && BookValid(s) && CountsValid(s) && TallyValid(s)
  }

  lemma InitialValid(owner: Address)
    ensures Valid(Initial(owner))
  {
  }

  lemma AddVoterPreservesValid(s: State, caller: Address, voter: Address, t: State)
    requires Valid(s) && AddVoter(s, caller, voter) == Ok(t)
    ensures Valid(t)
  {
    assert VotedSet(t) == VotedSet(s);
    forall i: nat
      ensures VotersFor(t, i) == VotersFor(s, i)
    {
      assert voter !in VotersFor(t, i) && voter !in VotersFor(s, i);
    }
  }

  lemma AddProposalPreservesValid(s: State, caller: Address, description: string, t: State)
    requires Valid(s) && AddProposal(s, caller, description) == Ok(t)
    ensures Valid(t)
  {
    TotalVotesAppend(s.proposals, Proposal(description, 0));
    SameVoters(s, t);
    NoVotersPastTheEnd(s);
    forall i | 0 <= i < |s.events| && s.events[i].ProposalRegistered?
      ensures s.events[i].proposalId < |s.proposals|
    {
      assert s.events[i] in s.events;
    }
  }

  lemma StartProposalsRegisteringPreservesValid(s: State, caller: Address, t: State)
    requires Valid(s) && StartProposalsRegistering(s, caller) == Ok(t)
    ensures Valid(t)
  {
    TotalVotesAppend(s.proposals, Genesis);
    SameVoters(s, t);
    NoVotersPastTheEnd(s);
  }

  /**
    A successful vote keeps the invariant: the total and the chosen
    proposal's voters each grow by the caller, and every other proposal's
    voters stay as they were.
   */
  lemma SetVotePreservesValid(s: State, caller: Address, id: nat, t: State)
    requires Valid(s) && SetVote(s, caller, id) == Ok(t)
    ensures Valid(t)
    ensures TotalVotes(t.proposals) == TotalVotes(s.proposals) + 1
    ensures VotedSet(t) == VotedSet(s) + {caller} && caller !in VotedSet(s)
    ensures VotersFor(t, id) == VotersFor(s, id) + {caller} && caller !in VotersFor(s, id)
  {
    TotalVotesIncrement(s.proposals, t.proposals, id);
    assert caller !in VotedSet(s);
    assert VotedSet(t) == VotedSet(s) + {caller};
    VoteChoices(s, caller, id, t);
    VoteKeepsProposalLog(s, caller, id, t);
  }

  /** A vote keeps every submitted proposal logged: the list keeps its length and the log only grows. */
  lemma VoteKeepsProposalLog(s: State, caller: Address, id: nat, t: State)
    requires BookValid(s) && SetVote(s, caller, id) == Ok(t)
    ensures forall pid: nat :: 1 <= pid < |t.proposals| ==> ProposalRegistered(pid) in t.events
  {
  }

  /** A vote adds its caller to the chosen proposal's voters and to no other proposal's. */
  lemma VoteChoices(s: State, caller: Address, id: nat, t: State)
    requires SetVote(s, caller, id) == Ok(t)
    ensures VotersFor(t, id) == VotersFor(s, id) + {caller} && caller !in VotersFor(s, id)
    ensures forall j: nat :: j != id ==> VotersFor(t, j) == VotersFor(s, j)
  {
    assert VotersFor(t, id) == VotersFor(s, id) + {caller};
    forall j: nat | j != id
      ensures VotersFor(t, j) == VotersFor(s, j)
    {
      assert caller !in VotersFor(t, j);
    }
  }

  lemma AdvancePreservesValid(s: State, caller: Address, from: WorkflowStatus, t: State)
    requires from != VotesTallied && from != RegisteringVoters && from != VotingSessionEnded
    requires Valid(s) && Advance(s, caller, from) == Ok(t)
    ensures Valid(t)
  {
    SameVoters(s, t);
  }

  lemma TallyVotesPreservesValid(s: State, caller: Address, t: State)
    requires Valid(s) && TallyVotes(s, caller) == Ok(t)
    ensures Valid(t)
  {
    SameVoters(s, t);
  }

  /** A call that leaves the voter mapping alone leaves every record reading the same. */
  lemma SameVoters(s: State, t: State)
    requires t.voters == s.voters
    ensures forall a :: VoterOf(t, a) == VoterOf(s, a)
    ensures VotedSet(t) == VotedSet(s)
    ensures forall i: nat :: VotersFor(t, i) == VotersFor(s, i)
  {
  }

  /** No voter has chosen an index the proposal list does not hold yet. */
  lemma NoVotersPastTheEnd(s: State)
    requires RegistryValid(s)
    ensures VotersFor(s, |s.proposals|) == {}
  {
    forall a | a in s.voters && s.voters[a].hasVoted
      ensures s.voters[a].votedProposalId < |s.proposals|
    {
      assert VoterOf(s, a) == s.voters[a];
    }
  }

  /** Every call, committed or reverted, keeps the invariant. */
  lemma StepPreservesValid(s: State, c: Call)
    requires Valid(s)
    ensures Valid(Commit(s, c))
  {
    match Apply(s, c)
    case Err(_) =>
    case Ok(t) =>
      match c.tx
      case AddVoterTx(v) => AddVoterPreservesValid(s, c.sender, v, t);
      case StartProposalsRegisteringTx => StartProposalsRegisteringPreservesValid(s, c.sender, t);
      case AddProposalTx(d) => AddProposalPreservesValid(s, c.sender, d, t);
      case EndProposalsRegisteringTx => AdvancePreservesValid(s, c.sender, ProposalsRegistrationStarted, t);
      case StartVotingSessionTx => AdvancePreservesValid(s, c.sender, ProposalsRegistrationEnded, t);
      case SetVoteTx(id) => SetVotePreservesValid(s, c.sender, id, t);
      case EndVotingSessionTx => AdvancePreservesValid(s, c.sender, VotingSessionStarted, t);
      case TallyVotesTx => TallyVotesPreservesValid(s, c.sender, t);
  }

  lemma {:induction false} RunPreservesValid(s: State, cs: seq<Call>)
    requires Valid(s)
    ensures Valid(Run(s, cs))
    decreases |cs|
  {
    if |cs| > 0 {
      StepPreservesValid(s, cs[0]);
      RunPreservesValid(Commit(s, cs[0]), cs[1..]);
    }
  }

  /** Every storage reachable from deployment satisfies the invariant. */
  lemma ReachableIsValid(owner: Address, cs: seq<Call>)
    ensures Valid(Run(Initial(owner), cs))
  {
    InitialValid(owner);
    RunPreservesValid(Initial(owner), cs);
  }

  /** In any reachable storage, the vote counts sum to the number of voters who have voted. */
  lemma VotesMatchVoters(owner: Address, cs: seq<Call>)
    ensures var t := Run(Initial(owner), cs);
      TotalVotes(t.proposals) == |VotedSet(t)|
  {
    ReachableIsValid(owner, cs);
  }

  /** An identity reads back as registered exactly when its registration was logged. */
  lemma RegisteredIffLogged(owner: Address, cs: seq<Call>, a: Address)
    ensures var t := Run(Initial(owner), cs);
      VoterOf(t, a).isRegistered <==> VoterRegistered(a) in t.events
  {
    ReachableIsValid(owner, cs);
  }

  /** A voter has voted for `id` exactly when the log holds that vote. */
  lemma VotedIffLogged(owner: Address, cs: seq<Call>, a: Address, id: nat)
    ensures var t := Run(Initial(owner), cs);
      VoterOf(t, a).hasVoted && VoterOf(t, a).votedProposalId == id <==> Voted(a, id) in t.events
  {
    ReachableIsValid(owner, cs);
  }

  /**
    In a reachable storage, a submitted proposal never takes index 0: it goes
    right after the existing ones, behind GENESIS, so the first one gets index 1.
   */
  lemma ProposalIdsStartAtOne(s: State, caller: Address, description: string, t: State)
    requires Valid(s) && AddProposal(s, caller, description) == Ok(t)
    ensures |s.proposals| >= 1 && t.proposals[0].description == Genesis.description
    ensures t.events[|t.events| - 1] == ProposalRegistered(|t.proposals| - 1)
    ensures |s.proposals| == 1 ==> t.events[|t.events| - 1] == ProposalRegistered(1)
  {
  }

  /** After the tally, the stored winner has at least as many votes as any proposal. */
  lemma WinnerHasMostVotes(s: State)
    requires Valid(s) && s.status == VotesTallied
    ensures s.winningProposalID < |s.proposals|
    ensures forall i :: 0 <= i < |s.proposals| ==> s.proposals[i].voteCount <= s.proposals[s.winningProposalID].voteCount
  {
  }

  /** A call keeps a registration, and keeps a cast vote's record exactly. */
  lemma StepKeepsRecords(s: State, c: Call, a: Address)
    requires Valid(s)
    ensures VoterOf(s, a).isRegistered ==> VoterOf(Commit(s, c), a).isRegistered
    ensures VoterOf(s, a).hasVoted ==> VoterOf(Commit(s, c), a) == VoterOf(s, a)
  {
  }

  /**
    Over any sequence of calls, a registration is never cleared, and a voter
    who has voted keeps `hasVoted` and `votedProposalId` as they were set.
   */
  lemma {:induction false} RunKeepsRecords(s: State, cs: seq<Call>, a: Address)
    requires Valid(s)
    ensures VoterOf(s, a).isRegistered ==> VoterOf(Run(s, cs), a).isRegistered
    ensures VoterOf(s, a).hasVoted ==> VoterOf(Run(s, cs), a) == VoterOf(s, a)
    decreases |cs|
  {
    if |cs| > 0 {
      StepKeepsRecords(s, cs[0], a);
      StepPreservesValid(s, cs[0]);
      RunKeepsRecords(Commit(s, cs[0]), cs[1..], a);
    }
  }

  /** In any reachable storage, the logged proposal indices are strictly increasing and start at 1. */
  lemma ProposalIdsIncrease(owner: Address, cs: seq<Call>)
    ensures var log := Run(Initial(owner), cs).events;
      && ProposalIdsIncreasing(log)
      && forall i :: 0 <= i < |log| && log[i].ProposalRegistered? ==> 1 <= log[i].proposalId
  {
    ReachableIsValid(owner, cs);
    var t := Run(Initial(owner), cs);
    forall i | 0 <= i < |t.events| && t.events[i].ProposalRegistered?
      ensures 1 <= t.events[i].proposalId
    {
      assert t.events[i] in t.events;
    }
  }

  /** In any reachable storage, each proposal's count is the number of voters who chose it. */
  lemma CountsMatchChoices(owner: Address, cs: seq<Call>, i: nat)
    ensures var t := Run(Initial(owner), cs);
      i < |t.proposals| ==> t.proposals[i].voteCount == |VotersFor(t, i)|
  {
    ReachableIsValid(owner, cs);
  }

  /**
    In any reachable storage, a proposal index past GENESIS exists exactly
    when its registration was logged, so the submitted proposals are logged
    as 1, 2, … with none skipped.
   */
  lemma ProposalsIffLogged(owner: Address, cs: seq<Call>, id: nat)
    ensures var t := Run(Initial(owner), cs);
      1 <= id < |t.proposals| <==> ProposalRegistered(id) in t.events
  {
    ReachableIsValid(owner, cs);
  }
}
