/**
  The data model of the Voting contract: voters, proposals, the six-step
  workflow status, the events the contract emits, the revert reasons, and the
  contract's whole storage as one immutable record.
 */
module VotingTypes {

  /** An account identity (`msg.sender`, a voter address); opaque apart from equality. */
  type Address = nat

  /** A voter record as `getVoter` returns it. */
  datatype Voter = Voter(isRegistered: bool, hasVoted: bool, votedProposalId: nat)

  /** What a Solidity mapping yields for an identity that was never written. */
  const Unregistered := Voter(false, false, 0)

  datatype Proposal = Proposal(description: string, voteCount: nat)

  /** The sentinel proposal that opening proposal registration creates at index 0. */
  const Genesis := Proposal("GENESIS", 0)

  /** The workflow, in its order; `Rank` is the number `workflowStatus()` reads back. */
  datatype WorkflowStatus =
    | RegisteringVoters
    | ProposalsRegistrationStarted
    | ProposalsRegistrationEnded
    | VotingSessionStarted
    | VotingSessionEnded
    | VotesTallied

  function Rank(st: WorkflowStatus): nat
  {
    match st
    case RegisteringVoters => 0
    case ProposalsRegistrationStarted => 1
    case ProposalsRegistrationEnded => 2
    case VotingSessionStarted => 3
    case VotingSessionEnded => 4
    case VotesTallied => 5
  }

  /** The one status each workflow transition moves to; VotesTallied has none. */
  function Successor(st: WorkflowStatus): (next: WorkflowStatus)
    requires st != VotesTallied
    ensures Rank(next) == Rank(st) + 1
  {
    match st
    case RegisteringVoters => ProposalsRegistrationStarted
    case ProposalsRegistrationStarted => ProposalsRegistrationEnded
    case ProposalsRegistrationEnded => VotingSessionStarted
    case VotingSessionStarted => VotingSessionEnded
    case VotingSessionEnded => VotesTallied
  }

  /** The contract's events, in the order they are emitted. */
  datatype Event =
    | VoterRegistered(voterAddress: Address)
    | ProposalRegistered(proposalId: nat)
    | Voted(voter: Address, proposalId: nat)
    | WorkflowStatusChange(previousStatus: WorkflowStatus, newStatus: WorkflowStatus)

  /** Why a call reverts. */
  datatype Error =
    | NotOwner
    | NotAVoter
    | AlreadyRegistered
    | EmptyProposal
    | AlreadyVoted
    | ProposalNotFound
    | WrongStatus(required: WorkflowStatus)

  /**
    The revert string a test reads back, where the tests pin it down. The text
    of ProposalNotFound is the one the out-of-range vote reads; the getter's
    out-of-range revert shares the error, and so the text.
   */
  function Reason(e: Error): Option<string>
  {
    match e
    case NotOwner => Some("Ownable: caller is not the owner")
    case NotAVoter => Some("You're not a voter")
    case AlreadyRegistered => Some("Already registered")
    case EmptyProposal => Some("Vous ne pouvez pas ne rien proposer")
    case AlreadyVoted => Some("You have already voted")
    case ProposalNotFound => Some("Proposal not found")
    case WrongStatus(required) =>
      if required == VotingSessionEnded then Some("Current status is not voting session ended") else None
  }

  datatype Option<+T> = None | Some(value: T)

  /** A call either succeeds with a value or reverts with an error. */
  datatype Result<+T> = Ok(value: T) | Err(error: Error)

  /** The contract's storage, plus the log of everything it has emitted. */
  datatype State = State(
    owner: Address,
    voters: map<Address, Voter>,
    proposals: seq<Proposal>,
    status: WorkflowStatus,
    winningProposalID: nat,
    events: seq<Event>)

  /** The freshly deployed contract, owned by its deployer. */
  function Initial(owner: Address): State
  {
    State(owner, map[], [], RegisteringVoters, 0, [])
  }

  /** Reads the voter mapping, defaulting like Solidity storage does. */
  function VoterOf(s: State, a: Address): Voter
  {
    if a in s.voters then s.voters[a] else Unregistered
  }

  /** The identities whose record says they have voted. */
  function VotedSet(s: State): set<Address>
  {
    set a | a in s.voters && s.voters[a].hasVoted
  }

  /** The identities whose record says they voted for proposal `id`. */
  function VotersFor(s: State, id: nat): set<Address>
  {
    set a | a in s.voters && s.voters[a].hasVoted && s.voters[a].votedProposalId == id
  }
}
