/**
  Transactions against the contract: a state-changing call either commits the
  new storage or reverts, leaving the storage (and the event log) exactly as
  it was. `Run` replays a sequence of calls from some starting storage.
 */
module Ledger {
  import opened VotingTypes
  import opened Voting

  /** The state-changing operations; the two getters change nothing and are not transactions. */
  datatype Tx =
    | AddVoterTx(voter: Address)
    | StartProposalsRegisteringTx
    | AddProposalTx(description: string)
    | EndProposalsRegisteringTx
    | StartVotingSessionTx
    | SetVoteTx(id: nat)
    | EndVotingSessionTx
    | TallyVotesTx

  datatype Call = Call(sender: Address, tx: Tx)

  function Apply(s: State, c: Call): Result<State>
  {
    match c.tx
    case AddVoterTx(v) => AddVoter(s, c.sender, v)
    case StartProposalsRegisteringTx => StartProposalsRegistering(s, c.sender)
    case AddProposalTx(d) => AddProposal(s, c.sender, d)
    case EndProposalsRegisteringTx => EndProposalsRegistering(s, c.sender)
    case StartVotingSessionTx => StartVotingSession(s, c.sender)
    case SetVoteTx(id) => SetVote(s, c.sender, id)
    case EndVotingSessionTx => EndVotingSession(s, c.sender)
    case TallyVotesTx => TallyVotes(s, c.sender)
  }

  /** The storage after the call: the new one, or the old one untouched when the call reverts. */
  function Commit(s: State, c: Call): State
  {
    match Apply(s, c)
    case Ok(t) => t
    case Err(_) => s
  }

  function Run(s: State, cs: seq<Call>): State
    decreases |cs|
  {
    if |cs| == 0 then s else Run(Commit(s, cs[0]), cs[1..])
  }

  /** The status a transaction demands, if it demands one (`addVoter` is not gated). */
  function RequiredStatus(tx: Tx): Option<WorkflowStatus>
  {
    match tx
    case AddVoterTx(_) => None
    case StartProposalsRegisteringTx => Some(RegisteringVoters)
    case AddProposalTx(_) => Some(ProposalsRegistrationStarted)
    case EndProposalsRegisteringTx => Some(ProposalsRegistrationStarted)
    case StartVotingSessionTx => Some(ProposalsRegistrationEnded)
    case SetVoteTx(_) => Some(VotingSessionStarted)
    case EndVotingSessionTx => Some(VotingSessionStarted)
    case TallyVotesTx => Some(VotingSessionEnded)
  }

  /** The transactions that move the workflow on. */
  predicate IsTransition(tx: Tx)
  {
    tx.StartProposalsRegisteringTx? || tx.EndProposalsRegisteringTx? || tx.StartVotingSessionTx? ||
    tx.EndVotingSessionTx? || tx.TallyVotesTx?
  }

  /**
    A call made in any status other than the one it demands reverts and
    leaves the storage and log unchanged; when the caller passes the access
    check, the error names the status that was demanded.
   */
  lemma WrongStatusChangesNothing(s: State, c: Call, p: WorkflowStatus)
    requires RequiredStatus(c.tx) == Some(p) && s.status != p
    ensures Apply(s, c).Err?
    ensures Commit(s, c) == s
    ensures IsTransition(c.tx) && c.sender == s.owner ==> Apply(s, c) == Err(WrongStatus(p))
    ensures !IsTransition(c.tx) && IsVoter(s, c.sender) ==> Apply(s, c) == Err(WrongStatus(p))
  {
  }

  /**
    One call moves the status by at most one step: it changes exactly when an
    owner-issued transition succeeds, it then goes from rank k to k + 1, and
    the call logs that change as its event.
   */
  lemma StepAdvancesAtMostOne(s: State, c: Call)
    ensures var t := Commit(s, c);
      && (t.status != s.status <==> IsTransition(c.tx) && Apply(s, c).Ok?)
      && (t.status != s.status ==>
            && c.sender == s.owner
            && Rank(t.status) == Rank(s.status) + 1
            && t.events == s.events + [WorkflowStatusChange(s.status, t.status)])
  {
  }

  /** A successful call appends exactly one event; a reverted one appends none. */
  lemma StepLogsOneEvent(s: State, c: Call)
    ensures Apply(s, c).Ok? ==> exists e :: Commit(s, c).events == s.events + [e]
    ensures Apply(s, c).Err? ==> Commit(s, c).events == s.events
  {
  }

  /** Once proposal registration has closed, no call changes the proposals but their counts. */
  lemma StepKeepsProposalsAfterRegistration(s: State, c: Call)
    requires Rank(s.status) >= 2
    ensures var t := Commit(s, c);
      && Rank(t.status) >= 2
      && |t.proposals| == |s.proposals|
      && forall i :: 0 <= i < |s.proposals| ==> t.proposals[i].description == s.proposals[i].description
  {
  }

  /** The owner never changes. */
  lemma {:induction false} RunKeepsOwner(s: State, cs: seq<Call>)
    ensures Run(s, cs).owner == s.owner
    decreases |cs|
  {
    if |cs| > 0 {
      RunKeepsOwner(Commit(s, cs[0]), cs[1..]);
    }
  }

  /** The workflow never moves back, and it moves at most one step per call. */
  lemma {:induction false} RunStatusMonotone(s: State, cs: seq<Call>)
    ensures Rank(s.status) <= Rank(Run(s, cs).status) <= Rank(s.status) + |cs|
    decreases |cs|
  {
    if |cs| > 0 {
      StepAdvancesAtMostOne(s, cs[0]);
      RunStatusMonotone(Commit(s, cs[0]), cs[1..]);
    }
  }

  /** The log only grows, by at most one event per call, and never loses or rewrites an entry. */
  lemma {:induction false} RunLogAppendOnly(s: State, cs: seq<Call>)
    ensures s.events <= Run(s, cs).events
    ensures |Run(s, cs).events| <= |s.events| + |cs|
    decreases |cs|
  {
    if |cs| > 0 {
      StepLogsOneEvent(s, cs[0]);
      RunLogAppendOnly(Commit(s, cs[0]), cs[1..]);
    }
  }

  /** After proposal registration has closed, the proposal list keeps its length and descriptions. */
  lemma {:induction false} RunKeepsProposalsAfterRegistration(s: State, cs: seq<Call>)
    requires Rank(s.status) >= 2
    ensures |Run(s, cs).proposals| == |s.proposals|
    ensures forall i :: 0 <= i < |s.proposals| ==>
      Run(s, cs).proposals[i].description == s.proposals[i].description
    decreases |cs|
  {
    if |cs| > 0 {
      StepKeepsProposalsAfterRegistration(s, cs[0]);
      RunKeepsProposalsAfterRegistration(Commit(s, cs[0]), cs[1..]);
    }
  }

  /** After the tally every call reverts but registrations, which touch neither the winner nor the proposals. */
  lemma StepKeepsWinner(s: State, c: Call)
    requires s.status == VotesTallied
    ensures var t := Commit(s, c);
      t.status == VotesTallied && t.winningProposalID == s.winningProposalID && t.proposals == s.proposals
  {
  }

  /** Once tallied, the stored winner and the proposal list, counts included, never change again. */
  lemma {:induction false} RunKeepsWinner(s: State, cs: seq<Call>)
    requires s.status == VotesTallied
    ensures Run(s, cs).winningProposalID == s.winningProposalID
    ensures Run(s, cs).proposals == s.proposals
    decreases |cs|
  {
    if |cs| > 0 {
      StepKeepsWinner(s, cs[0]);
      RunKeepsWinner(Commit(s, cs[0]), cs[1..]);
    }
  }

  /** One call never removes a proposal, never rewrites a description and never lowers a count. */
  lemma StepKeepsCounts(s: State, c: Call)
    ensures var t := Commit(s, c);
      && |s.proposals| <= |t.proposals|
      && forall i :: 0 <= i < |s.proposals| ==>
           && t.proposals[i].description == s.proposals[i].description
           && s.proposals[i].voteCount <= t.proposals[i].voteCount
  {
  }

  /** Over any sequence of calls, proposals are only appended and their counts only rise. */
  lemma {:induction false} RunKeepsCounts(s: State, cs: seq<Call>)
    ensures |s.proposals| <= |Run(s, cs).proposals|
    ensures forall i :: 0 <= i < |s.proposals| ==>
      && Run(s, cs).proposals[i].description == s.proposals[i].description
      && s.proposals[i].voteCount <= Run(s, cs).proposals[i].voteCount
    decreases |cs|
  {
    if |cs| > 0 {
      StepKeepsCounts(s, cs[0]);
      RunKeepsCounts(Commit(s, cs[0]), cs[1..]);
    }
  }

  /** Once voting has closed, one call leaves the proposal list, counts included, as it is. */
  lemma StepKeepsProposalsAfterVoting(s: State, c: Call)
    requires Rank(s.status) >= 4
    ensures Rank(Commit(s, c).status) >= 4
    ensures Commit(s, c).proposals == s.proposals
  {
  }

  /** From the close of voting on, including the window the tally reads, the proposals never change. */
  lemma {:induction false} RunKeepsProposalsAfterVoting(s: State, cs: seq<Call>)
    requires Rank(s.status) >= 4
    ensures Run(s, cs).proposals == s.proposals
    decreases |cs|
  {
    if |cs| > 0 {
      StepKeepsProposalsAfterVoting(s, cs[0]);
      RunKeepsProposalsAfterVoting(Commit(s, cs[0]), cs[1..]);
    }
  }
}
