/**
  The Voting contract's public operations. Each takes the storage and the
  caller (`msg.sender`) and either returns the new storage or reverts with an
  error. Every guard runs in the order access, then workflow status, then the
  argument checks, and the first failing guard decides the error.
 */
module Voting {
  import opened VotingTypes
  import opened Tally

  /** The `onlyVoters` guard: the caller's record says it is registered. */
  predicate IsVoter(s: State, caller: Address)
  {
    VoterOf(s, caller).isRegistered
  }

  /** Every voter record other than `a`'s reads the same in `s` and `t`. */
  ghost predicate OthersUnchanged(s: State, t: State, a: Address)
  {
    forall b :: b != a ==> VoterOf(t, b) == VoterOf(s, b)
  }

  /** Appends one event to the log. */
  function Emit(s: State, e: Event): State
  {
    s.(events := s.events + [e])
  }

  /** Registers `voter`; owner only, and only once per identity. */
  function AddVoter(s: State, caller: Address, voter: Address): (r: Result<State>)
    ensures caller != s.owner ==> r == Err(NotOwner)
    ensures caller == s.owner && VoterOf(s, voter).isRegistered ==> r == Err(AlreadyRegistered)
    ensures r.Ok? <==> caller == s.owner && !VoterOf(s, voter).isRegistered
    ensures r.Ok? ==>
      && VoterOf(r.value, voter) == Voter(true, false, 0)
      && OthersUnchanged(s, r.value, voter)
      && r.value.events == s.events + [VoterRegistered(voter)]
      && r.value == s.(voters := r.value.voters, events := r.value.events)
  {
    if caller != s.owner then Err(NotOwner)
    else if VoterOf(s, voter).isRegistered then Err(AlreadyRegistered)
    else Ok(Emit(s.(voters := s.voters[voter := Voter(true, false, 0)]), VoterRegistered(voter)))
  }

  /** Reads any identity's record; only a registered voter may ask. */
  function GetVoter(s: State, caller: Address, voter: Address): (r: Result<Voter>)
    ensures !IsVoter(s, caller) ==> r == Err(NotAVoter)
    ensures IsVoter(s, caller) ==> r == Ok(VoterOf(s, voter))
    ensures voter !in s.voters && r.Ok? ==> !r.value.isRegistered && !r.value.hasVoted
  {
    if !IsVoter(s, caller) then Err(NotAVoter) else Ok(VoterOf(s, voter))
  }

  /**
    The guard and effect every workflow transition shares: owner only, exactly
    in status `from`, then the status becomes the next one and the change is logged.
   */
  function Advance(s: State, caller: Address, from: WorkflowStatus): (r: Result<State>)
    requires from != VotesTallied
    ensures caller != s.owner ==> r == Err(NotOwner)
    ensures caller == s.owner && s.status != from ==> r == Err(WrongStatus(from))
    ensures r.Ok? <==> caller == s.owner && s.status == from
    ensures r.Ok? ==>
      && Rank(r.value.status) == Rank(s.status) + 1
      && r.value.events == s.events + [WorkflowStatusChange(s.status, r.value.status)]
      && r.value == s.(status := r.value.status, events := r.value.events)
  {
    if caller != s.owner then Err(NotOwner)
    else if s.status != from then Err(WrongStatus(from))
    else Ok(Emit(s.(status := Successor(from)), WorkflowStatusChange(from, Successor(from))))
  }

  /** Opens proposal registration (0 to 1) and seeds proposal 0 with GENESIS. */
  function StartProposalsRegistering(s: State, caller: Address): (r: Result<State>)
    ensures caller != s.owner ==> r == Err(NotOwner)
    ensures caller == s.owner && s.status != RegisteringVoters ==> r == Err(WrongStatus(RegisteringVoters))
    ensures r.Ok? <==> caller == s.owner && s.status == RegisteringVoters
    ensures r.Ok? ==>
      && r.value.status == ProposalsRegistrationStarted
      && r.value.proposals == s.proposals + [Genesis]
      && r.value.events == s.events + [WorkflowStatusChange(RegisteringVoters, ProposalsRegistrationStarted)]
      && r.value == s.(status := r.value.status, proposals := r.value.proposals, events := r.value.events)
  {
    match Advance(s, caller, RegisteringVoters)
    case Err(e) => Err(e)
    case Ok(t) => Ok(t.(proposals := t.proposals + [Genesis]))
  }

  /** A registered voter submits a non-empty proposal while registration is open. */
  function AddProposal(s: State, caller: Address, description: string): (r: Result<State>)
    ensures !IsVoter(s, caller) ==> r == Err(NotAVoter)
    ensures IsVoter(s, caller) && s.status != ProposalsRegistrationStarted ==>
      r == Err(WrongStatus(ProposalsRegistrationStarted))
    ensures IsVoter(s, caller) && s.status == ProposalsRegistrationStarted && description == "" ==>
      r == Err(EmptyProposal)
    ensures r.Ok? <==> IsVoter(s, caller) && s.status == ProposalsRegistrationStarted && description != ""
    ensures r.Ok? ==>
      && r.value.proposals == s.proposals + [Proposal(description, 0)]
      && r.value.events == s.events + [ProposalRegistered(|s.proposals|)]
      && r.value == s.(proposals := r.value.proposals, events := r.value.events)
  {
    if !IsVoter(s, caller) then Err(NotAVoter)
    else if s.status != ProposalsRegistrationStarted then Err(WrongStatus(ProposalsRegistrationStarted))
    else if description == "" then Err(EmptyProposal)
    else
      var id := |s.proposals|;
      Ok(Emit(s.(proposals := s.proposals + [Proposal(description, 0)]), ProposalRegistered(id)))
  }

  /** Reads one proposal; only a registered voter may ask, and the index must exist. */
  function GetOneProposal(s: State, caller: Address, id: nat): (r: Result<Proposal>)
    ensures !IsVoter(s, caller) ==> r == Err(NotAVoter)
    ensures IsVoter(s, caller) && id >= |s.proposals| ==> r == Err(ProposalNotFound)
    ensures r.Ok? <==> IsVoter(s, caller) && id < |s.proposals|
    ensures r.Ok? ==> r.value == s.proposals[id]
  {
    if !IsVoter(s, caller) then Err(NotAVoter)
    else if id >= |s.proposals| then Err(ProposalNotFound)
    else Ok(s.proposals[id])
  }

  /** Closes proposal registration (1 to 2). */
  function EndProposalsRegistering(s: State, caller: Address): (r: Result<State>)
    ensures caller != s.owner ==> r == Err(NotOwner)
    ensures caller == s.owner && s.status != ProposalsRegistrationStarted ==>
      r == Err(WrongStatus(ProposalsRegistrationStarted))
    ensures r.Ok? <==> caller == s.owner && s.status == ProposalsRegistrationStarted
    ensures r.Ok? ==>
      && r.value.status == ProposalsRegistrationEnded
      && r.value.events == s.events + [WorkflowStatusChange(ProposalsRegistrationStarted, ProposalsRegistrationEnded)]
      && r.value == s.(status := r.value.status, events := r.value.events)
  {
    Advance(s, caller, ProposalsRegistrationStarted)
  }

  /** Opens the voting session (2 to 3). */
  function StartVotingSession(s: State, caller: Address): (r: Result<State>)
    ensures caller != s.owner ==> r == Err(NotOwner)
    ensures caller == s.owner && s.status != ProposalsRegistrationEnded ==>
      r == Err(WrongStatus(ProposalsRegistrationEnded))
    ensures r.Ok? <==> caller == s.owner && s.status == ProposalsRegistrationEnded
    ensures r.Ok? ==>
      && r.value.status == VotingSessionStarted
      && r.value.events == s.events + [WorkflowStatusChange(ProposalsRegistrationEnded, VotingSessionStarted)]
      && r.value == s.(status := r.value.status, events := r.value.events)
  {
    Advance(s, caller, ProposalsRegistrationEnded)
  }

  /**
    A registered voter who has not voted yet casts one vote for an existing
    proposal while the session is open.
   */
  function SetVote(s: State, caller: Address, id: nat): (r: Result<State>)
    ensures !IsVoter(s, caller) ==> r == Err(NotAVoter)
    ensures IsVoter(s, caller) && s.status != VotingSessionStarted ==> r == Err(WrongStatus(VotingSessionStarted))
    ensures IsVoter(s, caller) && s.status == VotingSessionStarted && VoterOf(s, caller).hasVoted ==>
      r == Err(AlreadyVoted)
    ensures (IsVoter(s, caller) && s.status == VotingSessionStarted && !VoterOf(s, caller).hasVoted &&
             id >= |s.proposals|) ==> r == Err(ProposalNotFound)
    ensures r.Ok? <==>
      IsVoter(s, caller) && s.status == VotingSessionStarted && !VoterOf(s, caller).hasVoted && id < |s.proposals|
    ensures r.Ok? ==>
      && VoterOf(r.value, caller) == Voter(true, true, id)
      && OthersUnchanged(s, r.value, caller)
      && |r.value.proposals| == |s.proposals|
      && r.value.proposals[id] == s.proposals[id].(voteCount := s.proposals[id].voteCount + 1)
      && (forall j :: 0 <= j < |s.proposals| && j != id ==> r.value.proposals[j] == s.proposals[j])
      && r.value.events == s.events + [Voted(caller, id)]
      && r.value == s.(voters := r.value.voters, proposals := r.value.proposals, events := r.value.events)
  {
    if !IsVoter(s, caller) then Err(NotAVoter)
    else if s.status != VotingSessionStarted then Err(WrongStatus(VotingSessionStarted))
    else if VoterOf(s, caller).hasVoted then Err(AlreadyVoted)
    else if id >= |s.proposals| then Err(ProposalNotFound)
    else
      var p := s.proposals[id];
      Ok(Emit(s.(voters := s.voters[caller := Voter(true, true, id)],
                 proposals := s.proposals[id := p.(voteCount := p.voteCount + 1)]),
              Voted(caller, id)))
  }

  /** Closes the voting session (3 to 4). */
  function EndVotingSession(s: State, caller: Address): (r: Result<State>)
    ensures caller != s.owner ==> r == Err(NotOwner)
    ensures caller == s.owner && s.status != VotingSessionStarted ==> r == Err(WrongStatus(VotingSessionStarted))
    ensures r.Ok? <==> caller == s.owner && s.status == VotingSessionStarted
    ensures r.Ok? ==>
      && r.value.status == VotingSessionEnded
      && r.value.events == s.events + [WorkflowStatusChange(VotingSessionStarted, VotingSessionEnded)]
      && r.value == s.(status := r.value.status, events := r.value.events)
  {
    Advance(s, caller, VotingSessionStarted)
  }

  /**
    Counts the votes (4 to 5): stores the first proposal with the highest
    count as the winner. The owner check comes first, so a non-owner is told
    so even after the tally has been done.
   */
  function TallyVotes(s: State, caller: Address): (r: Result<State>)
    ensures caller != s.owner ==> r == Err(NotOwner)
    ensures caller == s.owner && s.status != VotingSessionEnded ==> r == Err(WrongStatus(VotingSessionEnded))
    ensures r.Ok? <==> caller == s.owner && s.status == VotingSessionEnded
    ensures r.Ok? ==>
      && r.value.status == VotesTallied
      && (|s.proposals| > 0 ==> IsFirstMaximum(s.proposals, r.value.winningProposalID))
      && (|s.proposals| == 0 ==> r.value.winningProposalID == 0)
      && r.value.events == s.events + [WorkflowStatusChange(VotingSessionEnded, VotesTallied)]
      && r.value == s.(status := r.value.status, winningProposalID := r.value.winningProposalID,
                       events := r.value.events)
  {
    match Advance(s, caller, VotingSessionEnded)
    case Err(e) => Err(e)
    case Ok(t) => Ok(t.(winningProposalID := WinningIndex(s.proposals)))
  }

  /** Once a vote has been cast, the same voter's next vote fails, whatever it targets. */
  lemma SecondVoteFails(s: State, caller: Address, id: nat, t: State, other: nat)
    requires SetVote(s, caller, id) == Ok(t)
    ensures SetVote(t, caller, other) == Err(AlreadyVoted)
  {
  }

  /** Votes from distinct voters for the same proposal add up. */
  lemma VotesAccumulate(s: State, a: Address, b: Address, id: nat, t: State, u: State)
    requires a != b
    requires SetVote(s, a, id) == Ok(t) && SetVote(t, b, id) == Ok(u)
    ensures u.proposals[id].voteCount == s.proposals[id].voteCount + 2
    ensures forall j :: 0 <= j < |s.proposals| && j != id ==> u.proposals[j] == s.proposals[j]
  {
  }
}
