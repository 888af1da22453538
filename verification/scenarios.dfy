/**
  The contract's test suite, block by block, as facts about concrete call
  sequences: the same accounts, the same calls in the same order, and what
  each assertion reads back.
 */
module Scenarios {
  import opened VotingTypes
  import opened Tally
  import opened Voting
  import opened Ledger

  const Admin: Address := 0
  const Voter1: Address := 1
  const Voter2: Address := 2
  const Voter3: Address := 3
  const Voter4: Address := 4
  const Prop1: string := "Proposition 1"
  const Prop2: string := "Proposition 2"
  const Prop3: string := "Proposition 3"

  function Register(v: Address): Call { Call(Admin, AddVoterTx(v)) }
  function Propose(v: Address, d: string): Call { Call(v, AddProposalTx(d)) }
  function Vote(v: Address, id: nat): Call { Call(v, SetVoteTx(id)) }
  function ByAdmin(tx: Tx): Call { Call(Admin, tx) }

  /** The last event a state has logged. */
  function LastEvent(s: State): Option<Event>
  {
    if |s.events| == 0 then None else Some(s.events[|s.events| - 1])
  }

  /** Registering voters, refusing a second registration and a non-owner caller. */
  lemma AddVoterBlock()
    ensures var s1 := Commit(Initial(Admin), Register(Voter1));
      var s3 := Commit(Commit(s1, Register(Voter2)), Register(Voter3));
      && GetVoter(s1, Voter1, Voter1) == Ok(Voter(true, false, 0))
      && GetVoter(s3, Voter1, Voter2).Ok? && GetVoter(s3, Voter1, Voter2).value.isRegistered
      && GetVoter(s3, Voter1, Voter3).Ok? && GetVoter(s3, Voter1, Voter3).value.isRegistered
      && Apply(s3, Register(Voter1)) == Err(AlreadyRegistered) && Commit(s3, Register(Voter1)) == s3
      && Reason(AlreadyRegistered) == Some("Already registered")
      && Apply(s3, Call(Voter1, AddVoterTx(Voter2))) == Err(NotOwner) && Commit(s3, Call(Voter1, AddVoterTx(Voter2))) == s3
      && Reason(NotOwner) == Some("Ownable: caller is not the owner")
      && LastEvent(Commit(s3, Register(Voter4))) == Some(VoterRegistered(Voter4))
  {
  }

  /** Reading voter records: a fresh voter, an unknown identity, and the admin who is no voter. */
  lemma GetVoterBlock()
    ensures var s := Commit(Initial(Admin), Register(Voter1));
      && GetVoter(s, Voter1, Voter1) == Ok(Voter(true, false, 0))
      && GetVoter(s, Voter1, Voter2).Ok? && !GetVoter(s, Voter1, Voter2).value.isRegistered
      && GetVoter(s, Admin, Voter1) == Err(NotAVoter)
      && Reason(NotAVoter) == Some("You're not a voter")
  {
  }

  /** Two voters registered and proposal registration open. */
  function ProposalsOpen(): State
  {
    var s := Commit(Commit(Initial(Admin), Register(Voter1)), Register(Voter2));
    Commit(s, ByAdmin(StartProposalsRegisteringTx))
  }

  lemma ProposalsOpenState()
    ensures ProposalsOpen().status == ProposalsRegistrationStarted
    ensures ProposalsOpen().proposals == [Genesis]
    ensures VoterOf(ProposalsOpen(), Voter1) == Voter(true, false, 0)
    ensures VoterOf(ProposalsOpen(), Voter2) == Voter(true, false, 0)
    ensures !IsVoter(ProposalsOpen(), Admin) && !IsVoter(ProposalsOpen(), Voter3)
  {
  }

  /** Submitting proposals: index 1 first, voters only, no empty description. */
  lemma AddProposalBlock()
    ensures var base := ProposalsOpen();
      var s := Commit(base, Propose(Voter1, Prop1));
      && GetOneProposal(s, Voter1, 1) == Ok(Proposal(Prop1, 0))
      && Apply(base, Propose(Admin, "Proposition admin")) == Err(NotAVoter)
      && Apply(base, Propose(Voter3, Prop3)) == Err(NotAVoter)
      && Apply(base, Propose(Voter1, "")) == Err(EmptyProposal)
      && Reason(EmptyProposal) == Some("Vous ne pouvez pas ne rien proposer")
      && LastEvent(s) == Some(ProposalRegistered(1))
  {
  }

  /** Reading proposals: the submitted one, the GENESIS one, and the admin who is no voter. */
  lemma GetOneProposalBlock()
    ensures var s1 := Commit(Initial(Admin), Register(Voter1));
      var s := Commit(Commit(s1, ByAdmin(StartProposalsRegisteringTx)), Propose(Voter1, Prop1));
      && GetOneProposal(s, Voter1, 1) == Ok(Proposal(Prop1, 0))
      && GetOneProposal(s, Voter1, 0) == Ok(Proposal("GENESIS", 0))
      && GetOneProposal(s, Admin, 1) == Err(NotAVoter)
  {
  }

  /** The storage every voting test starts from: two voters, two proposals, session open. */
  function VotingOpen(): State
  {
    var s := Commit(Commit(ProposalsOpen(), Propose(Voter1, Prop1)), Propose(Voter2, Prop2));
    Commit(Commit(s, ByAdmin(EndProposalsRegisteringTx)), ByAdmin(StartVotingSessionTx))
  }

  lemma VotingOpenState()
    ensures VotingOpen().status == VotingSessionStarted
    ensures VotingOpen().proposals == [Genesis, Proposal(Prop1, 0), Proposal(Prop2, 0)]
    ensures VotingOpen().voters == ProposalsOpen().voters
  {
  }

  /** Casting votes: recorded, counted, once only, for existing proposals, adding up across voters. */
  lemma SetVoteBlock()
    ensures var base := VotingOpen();
      var s1 := Commit(base, Vote(Voter1, 1));
      && GetVoter(s1, Voter1, Voter1).Ok? && GetVoter(s1, Voter1, Voter1).value.hasVoted
      && GetOneProposal(s1, Voter1, 1).Ok? && GetOneProposal(s1, Voter1, 1).value.voteCount == 1
      && Apply(s1, Vote(Voter1, 1)) == Err(AlreadyVoted) && Commit(s1, Vote(Voter1, 1)) == s1
      && Reason(AlreadyVoted) == Some("You have already voted")
      && Apply(base, Vote(Voter1, 424242)) == Err(ProposalNotFound) && Commit(base, Vote(Voter1, 424242)) == base
      && Reason(ProposalNotFound) == Some("Proposal not found")
      && var same := Commit(s1, Vote(Voter2, 1));
      && GetOneProposal(same, Voter1, 1).Ok? && GetOneProposal(same, Voter1, 1).value.voteCount == 2
      && var apart := Commit(s1, Vote(Voter2, 2));
      && GetOneProposal(apart, Voter1, 1).Ok? && GetOneProposal(apart, Voter1, 1).value.voteCount == 1
      && GetOneProposal(apart, Voter1, 2).Ok? && GetOneProposal(apart, Voter1, 2).value.voteCount == 1
      && LastEvent(s1) == Some(Voted(Voter1, 1))
  {
  }

  /** The storage of the tally tests once all three votes are in. */
  function AllVoted(): State
  {
    var s := Commit(Commit(Commit(Initial(Admin), Register(Voter1)), Register(Voter2)), Register(Voter3));
    var s := Commit(Commit(Commit(s, ByAdmin(StartProposalsRegisteringTx)), Propose(Voter1, Prop1)), Propose(Voter2, Prop2));
    var s := Commit(Commit(s, ByAdmin(EndProposalsRegisteringTx)), ByAdmin(StartVotingSessionTx));
    Commit(Commit(Commit(s, Vote(Voter1, 2)), Vote(Voter2, 1)), Vote(Voter3, 1))
  }

  lemma AllVotedState()
    ensures AllVoted().status == VotingSessionStarted
    ensures AllVoted().proposals == [Genesis, Proposal(Prop1, 2), Proposal(Prop2, 1)]
  {
  }

  /** Tallying: proposal 1 wins two to one; a voter may not tally; a second tally is refused. */
  lemma TallyVotesBlock()
    ensures var s := Commit(Commit(AllVoted(), ByAdmin(EndVotingSessionTx)), ByAdmin(TallyVotesTx));
      && s.winningProposalID == 1
      && Apply(s, Call(Voter1, TallyVotesTx)) == Err(NotOwner)
      && Apply(s, ByAdmin(TallyVotesTx)) == Err(WrongStatus(VotingSessionEnded))
      && Reason(WrongStatus(VotingSessionEnded)) == Some("Current status is not voting session ended")
  {
    AllVotedState();
    WinningIndexIsTheFirstMaximum(AllVoted().proposals, 1);
  }

  /** The workflow from deployment: status 0, then each transition k to k + 1, each logged. */
  lemma WorkflowBlock()
    ensures var s0 := Initial(Admin);
      var s1 := Commit(s0, ByAdmin(StartProposalsRegisteringTx));
      var s2 := Commit(s1, ByAdmin(EndProposalsRegisteringTx));
      var s3 := Commit(s2, ByAdmin(StartVotingSessionTx));
      var s4 := Commit(s3, ByAdmin(EndVotingSessionTx));
      var s5 := Commit(s4, ByAdmin(TallyVotesTx));
      && Rank(s0.status) == 0
      && Rank(s1.status) == 1 && LastEvent(s1) == Some(WorkflowStatusChange(RegisteringVoters, ProposalsRegistrationStarted))
      && Rank(s2.status) == 2 && LastEvent(s2) == Some(WorkflowStatusChange(ProposalsRegistrationStarted, ProposalsRegistrationEnded))
      && Rank(s3.status) == 3 && LastEvent(s3) == Some(WorkflowStatusChange(ProposalsRegistrationEnded, VotingSessionStarted))
      && Rank(s4.status) == 4 && LastEvent(s4) == Some(WorkflowStatusChange(VotingSessionStarted, VotingSessionEnded))
      && Rank(s5.status) == 5 && LastEvent(s5) == Some(WorkflowStatusChange(VotingSessionEnded, VotesTallied))
  {
  }

  /** Two proposals tied on one vote each: the scan keeps the lower index. */
  lemma TieGoesToLowerIndex()
    ensures WinningIndex([Genesis, Proposal(Prop1, 1), Proposal(Prop2, 1)]) == 1
  {
    WinningIndexIsTheFirstMaximum([Genesis, Proposal(Prop1, 1), Proposal(Prop2, 1)], 1);
  }
}
