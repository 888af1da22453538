# Voting contract, modelled in Dafny

This project models the `Voting` contract: one administrator (the contract
owner) registers voters and drives a six-step workflow. The steps are voter
registration, proposal registration opening, its closing, the voting session
opening, its closing, and the tally. Registered voters submit proposals and
each casts one vote. The tally stores the index of the winning proposal.

The contract's Solidity source, `Voting.sol`, is not part of this model. Its
behaviour is taken from its test suite, `test/voting.test.js`. Each thing the
tests assert is a contract or a lemma here: read-backs, revert reasons,
emitted events, and status numbers.

Layout, leaves first:

- `types.dfy` (`VotingTypes`): voter and proposal records, the workflow status
  and its rank 0..5, events, errors and their revert strings, and the storage
  record `State`.
- `tally.dfy` (`Tally`): the vote total, and the winner scan. The scan starts at
  `(0, 0)`, walks the proposals in ascending index order, and moves only on a
  strictly greater count. It is proved to return the first proposal with the
  highest count.
- `voting.dfy` (`Voting`): the ten public operations as pure functions from the
  storage and the caller to `Result<State>` (or to `Result<Voter>` /
  `Result<Proposal>` for the two getters). Guards run in the order access,
  status, argument. The first one that fails names the error.
- `ledger.dfy` (`Ledger`): transactions. A reverted call leaves the storage and
  its event log untouched (`Commit`). `Run` replays a sequence of calls. The
  lemmas cover the workflow moving one step at a time, the log only growing,
  the proposal count and descriptions staying fixed once registration closes
  (counts still move while voting is open), and the winner and proposals
  staying fixed once tallied.
- `invariants.dfy` (`Invariants`): an invariant that every reachable storage
  satisfies. Each proposal's count is the number of voters who chose it, the
  counts sum to the number of voters who have voted, the
  registry agrees with the event log, proposal 0 is GENESIS, and after the
  tally the stored winner is the first top-count proposal.
- `scenarios.dfy` (`Scenarios`): each `describe` block after deployment as a
  lemma over the same accounts and the same calls.

Identities are natural numbers compared only for equality. Events form an
append-only sequence of datatype values. A proposal index is a `nat`, so the
negative index the tests pass is rejected by the type itself, before any
operation runs.

Two modelling choices follow the tests:
- An unvoted voter reads back `votedProposalId = 0` (test/voting.test.js:56-61).
- A description is refused only when it is exactly `""` (test/voting.test.js:153-158). Nothing is trimmed.

## Model

| member | source | states |
|---|---|---|
| `Voting.AddVoter` | test/voting.test.js:39-95 | Fails with NotOwner for a non-owner caller. Otherwise fails with AlreadyRegistered for an already registered voter. It succeeds exactly when neither applies. On success the voter reads `{true, false, 0}`, no other record changes, `VoterRegistered(voter)` is appended, and nothing else changes. |
| `Voting.GetVoter` | test/voting.test.js:104-121 | Fails with NotAVoter unless the caller is registered. Otherwise returns the asked identity's record. An identity never written reads as not registered. |
| `Voting.Advance` | test/voting.test.js:321-374 | The guard and effect shared by the five workflow transitions. It fails with NotOwner for a non-owner, then with WrongStatus(from) outside `from`, and it succeeds exactly when neither applies. On success the rank rises by one, the change is logged, and nothing but the status and the log changes. |
| `Voting.StartProposalsRegistering` | test/voting.test.js:184-188 | Owner first, then status RegisteringVoters. On success the status becomes ProposalsRegistrationStarted, GENESIS with count 0 is appended as the next proposal, and one status-change event 0→1 is logged. |
| `Voting.AddProposal` | test/voting.test.js:132-167 | NotAVoter, then WrongStatus, then EmptyProposal for `""`. It succeeds exactly when all three pass. On success it appends `{description, 0}` at index `|proposals|` and logs `ProposalRegistered` with that index. Nothing else changes. |
| `Voting.GetOneProposal` | test/voting.test.js:178-195 | Fails with NotAVoter unless the caller is registered, and with ProposalNotFound for an index past the end. Otherwise returns that proposal. |
| `Voting.EndProposalsRegistering` | test/voting.test.js:336-344 | Owner only, only from ProposalsRegistrationStarted. On success moves to ProposalsRegistrationEnded and logs the 1→2 change. Nothing else changes. |
| `Voting.StartVotingSession` | test/voting.test.js:346-354 | Owner only, only from ProposalsRegistrationEnded. On success moves to VotingSessionStarted and logs the 2→3 change. |
| `Voting.SetVote` | test/voting.test.js:214-270 | NotAVoter, then WrongStatus, then AlreadyVoted, then ProposalNotFound for `id >= |proposals|`. It succeeds exactly when all pass. On success the caller reads `{true, true, id}`, proposal `id` gains exactly one vote, every other proposal and voter is unchanged, and `Voted(caller, id)` is logged. |
| `Voting.EndVotingSession` | test/voting.test.js:356-364 | Owner only, only from VotingSessionStarted. On success moves to VotingSessionEnded and logs the 3→4 change. |
| `Voting.TallyVotes` | test/voting.test.js:293-313 | The owner check comes before the status check, so a non-owner gets NotOwner even after the tally. Otherwise only from VotingSessionEnded. On success it moves to VotesTallied, logs 4→5, and stores the first proposal with the highest count as the winner. |
| `Voting.SecondVoteFails` | test/voting.test.js:226-232 | After a successful vote, the same voter's next vote fails with AlreadyVoted. The tests only retry the same index; that an out-of-range index also gets AlreadyVoted rests on the model's choice of checking AlreadyVoted before ProposalNotFound. |
| `Voting.VotesAccumulate` | test/voting.test.js:248-253 | Two distinct voters voting for the same proposal raise its count by two and leave every other proposal unchanged. |
| `Tally.Scan` | test/voting.test.js:293-299 | The loop state after a full pass. The index is in range for a non-empty list and its count is the one kept. No proposal has more votes than the kept count. Every earlier proposal has strictly fewer. |
| `Tally.WinningIndex` | test/voting.test.js:293-299 | The stored winner is the first maximum of the list, or 0 for an empty list. |
| `Tally.FirstMaximumUnique` | test/voting.test.js:293-299 | A list has at most one first maximum. |
| `Tally.WinningIndexIsTheFirstMaximum` | test/voting.test.js:293-299 | Any index that is a first maximum is the index the scan returns. |
| `Tally.TotalVotesAppend` | test/voting.test.js:132-137 | Appending a proposal adds its count to the total. |
| `Tally.TotalVotesIncrement` | test/voting.test.js:220-224 | Raising one count by one and no other raises the total by one. |
| `Ledger.WrongStatusChangesNothing` | test/voting.test.js:308-313 | A call made outside the status it requires reverts and leaves storage and log unchanged. When the caller passes the access check, the error is WrongStatus naming that status. |
| `Ledger.StepAdvancesAtMostOne` | test/voting.test.js:321-374 | The status changes exactly when a transition call succeeds. It then moves from rank k to k+1, only for the owner, and the call logs `WorkflowStatusChange(k, k+1)`. |
| `Ledger.StepLogsOneEvent` | test/voting.test.js:90-95 | A successful call appends exactly one event. A reverted call appends none. |
| `Ledger.StepKeepsProposalsAfterRegistration` | test/voting.test.js:204-212 | From ProposalsRegistrationEnded on, no call changes the number of proposals or any description. |
| `Ledger.StepKeepsWinner` | test/voting.test.js:301-313 | After the tally, one call leaves the status at VotesTallied and changes neither the stored winner nor the proposals. |
| `Ledger.RunKeepsWinner` | test/voting.test.js:293-313 | Once tallied, the stored winner and the proposal list, counts included, stay the same over any later sequence of calls. |
| `Ledger.StepKeepsCounts` | test/voting.test.js:214-262 | One call never removes a proposal, never rewrites a description, and never lowers a count. |
| `Ledger.RunKeepsCounts` | test/voting.test.js:248-262 | Over any sequence of calls, the existing proposals keep their descriptions and their counts never decrease. |
| `Ledger.StepKeepsProposalsAfterVoting` | test/voting.test.js:293-299 | From VotingSessionEnded on, one call keeps the status at rank 4 or more and leaves the proposal list, counts included, unchanged. |
| `Ledger.RunKeepsProposalsAfterVoting` | test/voting.test.js:293-299 | Once voting has closed, no sequence of calls changes the proposal list or any count, so the counts the tally reads are the ones voting left. |
| `Ledger.RunKeepsOwner` | test/voting.test.js:30-33 | The owner fixed at deployment never changes. |
| `Ledger.RunStatusMonotone` | test/voting.test.js:321-374 | Over any sequence of calls the status rank never decreases and grows by at most the number of calls. |
| `Ledger.RunLogAppendOnly` | test/voting.test.js:264-270 | Over any sequence of calls the old log is a prefix of the new one, which is longer by at most the number of calls. |
| `Ledger.RunKeepsProposalsAfterRegistration` | test/voting.test.js:204-212 | Once registration has closed, the proposal count and descriptions are fixed for every later sequence of calls. |
| `Invariants.InitialValid` | test/voting.test.js:321-324 | The deployed contract, with status 0 and nothing registered, satisfies the invariant. |
| `Invariants.AddVoterPreservesValid` | test/voting.test.js:39-95 | A successful registration keeps the invariant. |
| `Invariants.StartProposalsRegisteringPreservesValid` | test/voting.test.js:184-188 | Opening proposal registration keeps the invariant, with GENESIS becoming proposal 0. |
| `Invariants.AddProposalPreservesValid` | test/voting.test.js:132-137 | A successful submission keeps the invariant. |
| `Invariants.SetVotePreservesValid` | test/voting.test.js:248-262 | A successful vote keeps the invariant. The total grows by one, the set of voters who have voted grows by the caller (who was not in it), and so do the voters of the chosen proposal. |
| `Invariants.AdvancePreservesValid` | test/voting.test.js:336-364 | The three plain transitions keep the invariant. |
| `Invariants.TallyVotesPreservesValid` | test/voting.test.js:293-299 | The tally keeps the invariant, so the stored winner stays the first maximum. |
| `Invariants.StepPreservesValid` | test/voting.test.js:214-270 | Every call, committed or reverted, keeps the invariant. |
| `Invariants.RunPreservesValid` | test/voting.test.js:273-291 | Every sequence of calls keeps the invariant. |
| `Invariants.ReachableIsValid` | test/voting.test.js:273-291 | Every storage reachable from deployment satisfies the invariant. |
| `Invariants.VotesMatchVoters` | test/voting.test.js:248-262 | In any reachable storage, the vote counts sum to the number of voters whose record says they have voted. |
| `Invariants.CountsMatchChoices` | test/voting.test.js:248-262 | In any reachable storage, each proposal's count equals the number of voters whose record names it as their choice. |
| `Invariants.VoteChoices` | test/voting.test.js:214-224 | A successful vote adds the caller, who was not there before, to the chosen proposal's voters, and leaves every other proposal's voters as they were. |
| `Invariants.RegisteredIffLogged` | test/voting.test.js:111-114 | In any reachable storage, an identity reads back as registered exactly when a `VoterRegistered` for it was logged. An identity never added therefore reads false. |
| `Invariants.VotedIffLogged` | test/voting.test.js:264-270 | In any reachable storage, a voter has voted for `id` exactly when `Voted(voter, id)` was logged. |
| `Invariants.ProposalIdsStartAtOne` | test/voting.test.js:160-167 | In a reachable storage a submitted proposal never gets index 0. It is logged with its own index, and the first one is logged as index 1. |
| `Invariants.StepKeepsRecords` | test/voting.test.js:42-61 | From a valid storage, one call never clears a registration, and never alters the record of a voter who has voted. |
| `Invariants.RunKeepsRecords` | test/voting.test.js:214-232 | Over any sequence of calls from a valid storage, a registration stays set, and a voter who has voted keeps `hasVoted` and `votedProposalId` exactly as they were. |
| `Invariants.ProposalsIffLogged` | test/voting.test.js:160-167 | In any reachable storage, an index from 1 up to the last proposal exists exactly when `ProposalRegistered` with that index was logged. With the ordering below, the submissions are logged as 1, 2, … in order, none skipped. |
| `Invariants.VoteKeepsProposalLog` | test/voting.test.js:214-224 | A successful vote leaves every submitted proposal's registration in the log. |
| `Invariants.ProposalIdsIncrease` | test/voting.test.js:160-167 | In any reachable storage, the logged `ProposalRegistered` indices are all at least 1 and strictly increasing in log order. |
| `Invariants.WinnerHasMostVotes` | test/voting.test.js:293-299 | After the tally, the stored winner is in range and no proposal has more votes. |
| `Scenarios.AddVoterBlock` | test/voting.test.js:36-96 | The addVoter tests. Voter1 reads `{true, false, 0}`. Voter2 and voter3 are registered. Re-adding voter1 and a call by voter1 both revert with their texts and change nothing. Adding voter4 logs `VoterRegistered(voter4)`. |
| `Scenarios.GetVoterBlock` | test/voting.test.js:98-122 | The getVoter tests. The registered voter reads `{true, false, 0}`, an unknown identity reads unregistered, and the admin is refused with "You're not a voter". |
| `Scenarios.ProposalsOpenState` | test/voting.test.js:124-130 | The setup of the addProposal tests. Two voters are registered, the status is 1, and the proposal list is just GENESIS. |
| `Scenarios.AddProposalBlock` | test/voting.test.js:132-167 | The addProposal tests. The first proposal reads back at index 1 with no votes. The admin and voter3 are refused. `""` is refused with its French text. The event carries index 1. |
| `Scenarios.GetOneProposalBlock` | test/voting.test.js:170-195 | The getOneProposal tests. Index 1 is the submitted proposal, index 0 is GENESIS with no votes, and the admin is refused. |
| `Scenarios.VotingOpenState` | test/voting.test.js:198-212 | The setup of the setVote tests. The status is 3 and the proposals are GENESIS, proposition 1 and proposition 2, all at zero. |
| `Scenarios.SetVoteBlock` | test/voting.test.js:214-270 | The setVote tests. A vote is recorded and counted. A second vote and index 424242 revert with their texts and change nothing. Two votes for one proposal give 2, votes for two proposals give 1 and 1, and `Voted(voter1, 1)` is logged. |
| `Scenarios.AllVotedState` | test/voting.test.js:273-291 | The setup of the tally tests. After the three votes the counts are 0, 2, 1. |
| `Scenarios.TallyVotesBlock` | test/voting.test.js:293-313 | The tally tests. The winner is 1. Voter1 then gets the owner error. The admin's second tally gets "Current status is not voting session ended". |
| `Scenarios.WorkflowBlock` | test/voting.test.js:321-374 | The workflow tests. The status reads 0, then each owner transition reads k+1 and logs the change from k to k+1. |
| `Scenarios.TieGoesToLowerIndex` | test/voting.test.js:293-299 | Beyond what the tests check: with two proposals tied on one vote each, the scan keeps index 1, the lower one. |

## Left out

- `Voting.sol` is not part of this model. Behaviour comes from the test assertions. Where they do not decide it, the model chooses and says so: the status check runs before the argument checks in `AddProposal` and `SetVote`, AlreadyVoted is checked before ProposalNotFound, a tie in the tally goes to the lower index, and `GetOneProposal` past the end reverts (below).
- Deployment, the contract address check (test/voting.test.js:26-28) and the Truffle / OpenZeppelin test helpers are tooling, not contract logic.
- ABI decoding: the ethers `INVALID_ARGUMENT` text for `setVote(-1)` is not reproduced. The index is a `nat`, so a negative index cannot be passed at all.
- Phase gating of `addVoter`: the tests neither exercise nor enforce it, so `AddVoter` accepts a registration in any status.
- Revert texts of the phase errors other than the tally's are not asserted by the tests, so `Reason` gives none for them. The errors themselves are modelled as `WrongStatus(required)`.
- `GetOneProposal` with an index past the end: the tests do not exercise it. The model reverts with ProposalNotFound, and the revert text "Proposal not found" that `Reason` gives it is borrowed from `setVote`'s out-of-range test (test/voting.test.js:234-240), not asserted for this getter.
- Voting for GENESIS (index 0) is allowed, as nothing in the tests forbids it.
- `uint256` width: counts and indices are unbounded `nat`. A count is bounded by the number of voters and can never approach 2^256, so wrap-around never matters here.
- Ownable beyond a fixed owner identity (ownership transfer and renouncing), gas, `BN` handling and the on-chain encoding of events.
- Calls run one at a time to completion. Concurrency is out of scope, as it is for the contract itself.
