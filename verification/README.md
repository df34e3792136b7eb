# Masjid Chain: contracts and indexer

Masjid Chain registers mosques by a vote of accredited verifiers. `MasjidProtocol` takes registrations and
votes; a quorum of yes votes makes `MasjidFactory` deploy a `MasjidInstance`, the treasury of that mosque,
whose board proposes and approves cash-outs that its admin executes. An off-chain indexer polls the chain,
decodes the contracts' logs and projects them into database tables.

This project models both halves and proves what joins them.

- **Contracts.** Every public function of `VerifierRegistry`, `MasjidProtocol`, `MasjidFactory` and
  `MasjidInstance` is a step with a caller and a block time that commits or reverts. The steps are written
  twice: as functions on storage (`Instance`, `World`), about which the theorems over runs are proved, and in
  place, as classes whose methods write field by field and take the writes back on a late revert
  (`TokenContract`, `InstanceContract`, `ProtocolContracts`). Each method is proved to do exactly what its
  function says: same logs and new storage, or same error and old storage.
- **Indexer.** The handlers are functions on tables (`Projection`) and methods of repository and service
  classes (`Events`) in which any database call may fail. `Replay` proves that going back over the log is
  harmless, `Refinement` that the tables agree with the contracts, `Chain` and `Disclosure` what fetching a
  run's logs in block ranges delivers, `Indexing` that the polling loop delivers it, and `Abi` that the
  hand-written decoding reads back what the contracts encode.

## The parts

| file | what it holds |
|---|---|
| `Types.dfy` | addresses, hashes, errors, results; what "did as specified" means |
| `Instance.dfy`, `World.dfy` | the contracts as functions of their storage, and runs of them |
| `InstanceSafety.dfy` | one instance over whole runs: tallies, evidence for payouts, thresholds, expiry |
| `Reentrancy.dfy`, `Treasury.dfy` | tokens that call back; the instance's balance |
| `WorldSafety.dfy` | the invariant of the whole system, step by step |
| `Governance.dfy`, `Votes.dfy`, `InstanceRuns.dfy` | mirrors, names, terminal states; the vote; instances inside runs of the whole system |
| `Stewardship.dfy` | registry and protocol: when each call commits, and what each piece of storage follows |
| `Histories.dfy`, `Boards.dfy` | deployed instances: requests go back to their proposals, boards and thresholds to the steps that set them, and each call commits exactly when the steps before allow it |
| `TokenContract.dfy`, `InstanceContract.dfy`, `ProtocolContracts.dfy` | the contracts in place |
| `Projection.dfy`, `Replay.dfy`, `Refinement.dfy` | handlers on tables, replays, agreement with the contracts |
| `Rows.dfy`, `Chronicle.dfy` | every column as the calls of the run say it; logs against storage |
| `Facts.dfy` | what instance logs tell, once each |
| `Events.dfy` | repositories and handlers in place, with failures |
| `Chain.dfy`, `Disclosure.dfy`, `Indexing.dfy` | blocks, chunks and queries; the chain of a run; the polling loop |
| `Witnesses.dfy` | runs from the initial state that show the failing cases to be real |
| `Abi.dfy` | decoding against the Solidity Contract ABI Specification |

`dafny verify dfyconfig.toml` checks everything.

## Main results

1. **Payouts.** In every run of the whole system, for every executed request of a deployed instance there is
   one step of that run, sent by the masjid's admin on record while protocol and instance had the masjid
   verified, in time and with at least the threshold of that moment in distinct accounts, each of which had
   sent its own approval at an earlier step of the run while on the board, with the instance verified and in
   time. A request is paid at most once whatever the token calls back, with the same evidence among the calls
   made in the transactions, and the balance of the instance is what it received minus what its executed
   requests sent away. What it pays is what an earlier step, sent by a board member, asked for.
2. **Every call of an instance, exactly.** In every reachable state an execution commits if and only if an admin
   of the instance sends it, the masjid is verified, some step before proposed the request and none settled it,
   its proposal's lifetime is not over, the accounts that approved it at steps before are at least as many as
   the threshold, and the token pays. Approvals, cancellations, proposals and board changes have conditions of
   the same kind. The board is exactly the accounts that some step seated and none since has unseated, and the
   threshold is what the last step that set it set it to.
3. **Who may do what.** In every reachable state a flag, unflag or revocation commits if and only if the protocol's
   admin, for ever the account that deployed it, sends it on a status it applies to, and nothing else changes the
   status of a deployed masjid. Handovers, registry calls, votes and registrations have exact conditions too: a
   name can be registered if and only if every masjid registered under it has been rejected.
4. **Mirrors.** In every reachable state protocol, factory and instance agree on status, admin and address,
   no two masjids share an instance, and at most one registration of a name is not rejected.
5. **The vote.** Its outcome does not depend on the order of the votes; while no verifier is removed only the
   side voted for can win; and removals break this exactly when the other side already has the lowered quorum,
   which a run of thirteen steps from the initial state does.
6. **Tables.** Handling the logs of any run gives tables that agree with the contracts, and so does handling
   them with any rewinds, as long as the end is reached. Times are kept as int64: the expiry column is the
   contract's expiry if and only if that is below 2^63. Column by column, the tables hold what the last
   committed call about the column made it, with the caller and the block time of that call, and every log of
   a committed call, indexed or not, says what that call changed.
7. **The indexer.** Over any sequence of polls with failing reads, writes and fetches, every block up to a
   checkpoint was fetched, every error goes back to a refused fetch or a failed database call, and without any
   the checkpoints are just after the furthest head polled. If no protocol pass of the sequence failed, none
   of its handlers did, and it had not both a failed checkpoint read and a failed checkpoint write, then no
   log of any instance up to the instance checkpoint was missed, those of its deployment block included; and
   if the instance pass was as careful, the tables hold everything the chain says up to the checkpoints. A
   single pass on exact tables loses nothing if and only if every instance that tells something in the blocks
   it fetched is listed, and a chain of two masjids shows how a failed protocol pass loses a proposal for
   good.

## Where code and documentation disagree

The model follows the code.

- `docs/docs/core-flow/user-flows.md:54` and `docs/docs/security/overview.md:27` let board members execute
  cash-outs; `executeCashOut` and `cancelCashOut` require ADMIN_ROLE.
- `docs/docs/security/overview.md:54` describes a reentrancy guard on `executeCashOut`; there is none, and
  `Reentrancy` proves that the write of `executed` before the token call is enough.
- The removal of a board member lowers the member count also when the account is not a member, and
  `revokeRole` or `renounceRole` empty the board without lowering it. `InstanceSafety` states exactly when the
  counter overtakes the number of holders, and shows a threshold that nobody is left to meet.
- Adding the lifetime of a request to the block time is cast to 64 bits. `InstanceSafety` states exactly when
  the stored expiry is the intended one, and proves that a request whose expiry wrapped is never paid.

## Assumptions

Block time is positive, below 2^64 and never decreases along a run. keccak256 is injective and never zero
(free constructors). The factory's k-th successful deployment is at an address of its own. Only externally
owned accounts send transactions; an account cannot be the protocol, the factory or an instance. Logs are
final once they are in a block before the head. The start block of the indexer is not after the first log.

## Model

| member | source | states |
|---|---|---|
| Instance.BoardAccepted | smart-contract/src/protocol/MasjidInstance.sol:143-152 | the constructor's loop accepts a board if and only if it has no zero address and no repetition |
| InstanceSafety.StepKeepsInv | smart-contract/src/protocol/MasjidInstance.sol:170-326 | every call, committed or reverted, keeps: 1 <= threshold <= member count; each request's tally is the number of its approvers; never both executed and canceled |
| InstanceSafety.RunKeepsInv | smart-contract/src/protocol/MasjidInstance.sol:237-238 | the same in every state of every run from a construction |
| InstanceSafety.StepAdvances | smart-contract/src/protocol/MasjidInstance.sol:226-271 | a step never changes the terms of a request, never forgets an approver, never undoes executed or canceled |
| InstanceSafety.RequestsAdvance | smart-contract/src/protocol/MasjidInstance.sol:243-271 | over any stretch of any run executed and canceled are permanent and the terms of a request never change |
| InstanceSafety.NewApproverApproved | smart-contract/src/protocol/MasjidInstance.sol:226-241 | an approver appears only by its own approveCashOut, on the board, in status Verified and in time |
| InstanceSafety.NewlyExecuted | smart-contract/src/protocol/MasjidInstance.sol:243-260 | `executed` appears only by an admin's paid executeCashOut, in status Verified, in time and with the threshold met |
| InstanceSafety.ApprovalEvidence | smart-contract/src/protocol/MasjidInstance.sol:226-241 | for every recorded approver of any run there is an earlier step at which that account approved for the first time, meeting every guard between creation and expiry |
| InstanceSafety.ExecutionEvidence | smart-contract/src/protocol/MasjidInstance.sol:243-260 | for every executed request of any run there is the step that set the flag, meeting every guard with the threshold of that moment, and its approvers have not changed since |
| InstanceSafety.ExpiryOfProposal | smart-contract/src/protocol/MasjidInstance.sol:202-216 | the stored expiry is now + lifetime, and later than the creation, exactly when the sum is below 2^64; it never equals the creation time |
| InstanceSafety.WrappedExpiryIsDead | smart-contract/src/protocol/MasjidInstance.sol:202-252 | a request whose expiry is before its creation has no approver and is not executed, in every run |
| InstanceSafety.CounterOvertakesHoldersExactlyWhen | smart-contract/src/protocol/MasjidInstance.sol:273-290 | from a state with no more counted than held memberships, a step leaves more counted than held if and only if it is a committed direct revokeRole or renounceRole of a member while the two were equal |
| InstanceSafety.CounterBelowHolders | smart-contract/src/protocol/MasjidInstance.sol:273-302 | in every run without direct revocations threshold <= member count <= number of BOARD_ROLE holders |
| InstanceSafety.CounterEqualsHolders | smart-contract/src/protocol/MasjidInstance.sol:273-290 | when the board changes only through setBoardMember and removals name members, the counter is the number of holders |
| InstanceSafety.RemovingAStrangerLowersTheCounter | smart-contract/src/protocol/MasjidInstance.sol:283-287 | removing an account that is not a member commits, keeps the board and lowers the counter |
| InstanceSafety.ApproveAllCollects | smart-contract/src/protocol/MasjidInstance.sol:226-241 | for an open request, any list of distinct members who have not approved can all approve, in any order, and the approvers are then the old ones and the list |
| InstanceSafety.EnoughApproversPay | smart-contract/src/protocol/MasjidInstance.sol:226-260 | for an open request, any distinct members who have not approved, in any order, can approve, and as soon as approvers and voters together are as many as the threshold an admin's execution commits and marks the request executed |
| InstanceSafety.ThresholdIsReachable | smart-contract/src/protocol/MasjidInstance.sol:226-252 | in every state reached without direct revocations, letting all remaining members approve commits every vote, ends with as many approvals as approvers and board together, which meets the threshold, and the admin can then execute |
| InstanceSafety.DirectRevocationStrandsTheThreshold | smart-contract/src/protocol/MasjidInstance.sol:143-154 | a board of one, revoked directly by the admin, leaves threshold 1 with an empty board |
| Reentrancy.PayoutAtMostOnce | smart-contract/src/protocol/MasjidInstance.sol:243-260 | a call tree of any depth made during token calls keeps: a request has one payment if it is executed and none otherwise |
| Reentrancy.NoRequestIsPaidTwice | smart-contract/src/protocol/MasjidInstance.sol:243-260 | over the whole life of an instance with a token that calls back, a request is paid at most once, and exactly when it is executed |
| Reentrancy.TreesFlatten | smart-contract/src/protocol/MasjidInstance.sol:170-260 | a call tree does to the storage exactly what those of its own calls that are not undone do un-nested, in order, each committing |
| Reentrancy.ForestsFlatten | smart-contract/src/protocol/MasjidInstance.sol:170-260 | the same for the calls one token call makes |
| Reentrancy.RunsFlatten | smart-contract/src/protocol/MasjidInstance.sol:170-260 | over a life with a token that calls back, the calls not undone make a run of the instance from its construction to the same storage, each committing and each made in one of the transactions at its time |
| Reentrancy.ReentrantPayoutHasEvidence | smart-contract/src/protocol/MasjidInstance.sol:243-260 | a request executed under such a token was executed by one of those calls with the evidence of ExecutionEvidence among the earlier ones |
| Treasury.TransferMoves | smart-contract/test/protocol/MasjidProtocol.t.sol:22-27 | a committed transfer moves the amount between two accounts, changes nobody else and no allowance, and a transfer to oneself changes nothing |
| Treasury.ActConserves | smart-contract/src/protocol/MasjidInstance.sol:170-260 | minting, approving, sending and every call to the instance keep: balance + paid out = received, and the instance grants no allowance |
| Treasury.BalanceIsReceivedMinusPaidOut | smart-contract/src/protocol/MasjidInstance.sol:243-260 | from construction on, over any sequence of token and instance calls, the balance is what was received minus the amounts of executed requests to others |
| Treasury.BalancesFollow | smart-contract/src/protocol/MasjidInstance.sol:170-260 | every account's balance moves by exactly the money the action moves, and money moves if and only if payer, payee and allowance let it: a payout takes its request's amount from the instance to its recipient, a cash-in takes the amount from the caller to the instance |
| Treasury.EveryBalanceIsAccountedFor | smart-contract/test/protocol/MasjidProtocol.t.sol:16-37 | over any sequence of token and instance calls every account's balance is what it was plus what the committed ones moved to it minus what they moved away |
| Treasury.AllowancesFollow | smart-contract/test/protocol/MasjidProtocol.t.sol:18-36 | an allowance is what its owner set less what its spender has spent, payouts leaving all of them alone |
| Treasury.ExecutedExactlyWhenMoved | smart-contract/src/protocol/MasjidInstance.sol:243-260 | an execution marks its request if and only if the money moves, and changes nothing otherwise |
| WorldSafety.StepKeepsInv | smart-contract/src/protocol/MasjidProtocol.sol:126-283 | every call to any contract keeps the system invariant: counts, votes, terms, mirrors, name index, deployments |
| WorldSafety.RunKeepsInv | smart-contract/src/protocol/MasjidProtocol.sol:126-283 | the same in every reachable state |
| WorldSafety.VerifyDeploys | smart-contract/src/protocol/MasjidProtocol.sol:196-218 | the deployment commits exactly on a well-formed board, and what it leaves on both sides |
| WorldSafety.AccountCallsKeepIdentity | smart-contract/src/protocol/MasjidInstance.sol:131-141 | no account call to an instance changes its id, status, admin or token, or adds to its protocol, root or admin role |
| Governance.ProtocolAndInstanceAgree | smart-contract/src/protocol/MasjidProtocol.sol:196-283 | a masjid has an instance iff it is Verified, Flagged or Revoked; the factory entry, status, admin and token then agree, ADMIN_ROLE is at most the admin's; without one the admin is the proposer |
| Governance.OneInstancePerMasjid | smart-contract/src/protocol/MasjidFactory.sol:27-57 | no two masjids have the same instance, in any reachable state |
| Governance.StepEffect | smart-contract/src/protocol/MasjidProtocol.sol:126-283 | whatever the step, a masjid keeps its terms, board and instance, moves along the status diagram, and only a committed vote on it changes its votes |
| Governance.AttestEffect | smart-contract/src/protocol/MasjidProtocol.sol:172-194 | a committed vote counts one, is recorded once, and ends Verified, Rejected or Pending according to the tallies and the quorum, yes first |
| Governance.TerminalForever | smart-contract/src/protocol/MasjidProtocol.sol:220-258 | in every run Rejected and Revoked are permanent and no registration is lost |
| Governance.NamesAreUnique | smart-contract/src/protocol/MasjidProtocol.sol:136-163 | of two registrations of a name the older is rejected, now and for ever, and the index holds one at least as new as the newer |
| Governance.AtMostOneLivePerName | smart-contract/src/protocol/MasjidProtocol.sol:136-163 | two registrations of a name that are both not rejected are the same, and the index holds it |
| Governance.IllFormedBoardIsNeverVerified | smart-contract/src/protocol/MasjidProtocol.sol:155-209 | a registration with a zero address or a repetition on its board never gets an instance, in any run |
| Governance.DecisiveYesDeploysOrReverts | smart-contract/src/protocol/MasjidProtocol.sol:172-218 | the yes vote that reaches the quorum commits iff the board is well-formed; then the instance starts Verified with the listed board, count n and threshold n/2 + 1, a strict majority |
| Stewardship.AdminIsForEver | smart-contract/src/protocol/MasjidProtocol.sol:96-125 | the protocol's admin is the same in every state of every run |
| Stewardship.AuthorityFollows | smart-contract/src/protocol/VerifierRegistry.sol:33-38 | the authority changes to whom the authority hands itself over, and in no other way |
| Stewardship.VerifiersFollow | smart-contract/src/protocol/VerifierRegistry.sol:40-63 | an account is a verifier after a transaction iff the authority has just added it, or it was one and the authority has not just removed it |
| Stewardship.RegistryCommitsExactlyWhen | smart-contract/src/protocol/VerifierRegistry.sol:33-63 | registry calls commit iff the authority hands over to somebody, adds an account that is not a verifier, or removes one that is |
| Stewardship.RulingCommitsExactlyWhen | smart-contract/src/protocol/MasjidProtocol.sol:239-258 | in every reachable state a flag, unflag or revocation commits iff the protocol's admin sends it on a status it applies to, and both sides then have the new status |
| Stewardship.DeployedStatusFollows | smart-contract/src/protocol/MasjidProtocol.sol:239-283 | after any transaction the status of a deployed masjid is what a committed ruling of the admin made it, or what it was |
| Stewardship.StatusIsTheLastRuling | smart-contract/src/protocol/MasjidProtocol.sol:239-283 | over any stretch of any run, if the status of a deployed masjid differs at its end, a step of the account that deployed the protocol ruled it so |
| Stewardship.HandoverCommitsExactlyWhen | smart-contract/src/protocol/MasjidProtocol.sol:226-237 | a handover commits iff the recorded admin of a deployed masjid names somebody; then the protocol records the new admin and nobody else holds ADMIN_ROLE on the instance |
| Stewardship.MasjidAdminFollows | smart-contract/src/protocol/MasjidProtocol.sol:226-237 | the recorded admin of a masjid changes by such a handover and in no other way |
| Stewardship.RegistrationCommitsExactlyWhen | smart-contract/src/protocol/MasjidProtocol.sol:126-142 | a registration with a name, a token and a board commits iff every masjid registered under that name has been rejected |
| Stewardship.RegistrationIsOnRecord | smart-contract/src/protocol/MasjidProtocol.sol:144-169 | in every run each registered masjid goes back to one step, and its id, proposer, name, URI, token, board, threshold and time are what that step asked for |
| Stewardship.VoteCommitsExactlyWhen | smart-contract/src/protocol/MasjidProtocol.sol:172-194 | a vote commits iff it is the first of a current verifier on a pending masjid and does not decide for a board that cannot be deployed |
| Stewardship.UpdateTimeFollows | smart-contract/src/protocol/MasjidProtocol.sol:172-283 | a masjid's update time is that of its registration or of the last committed call that concerned it |
| Votes.TalliesCountAttesters | smart-contract/src/protocol/MasjidProtocol.sol:180-187 | in every reachable state yes + no = number of attesters = accounts marked, without repetition; verifierCount = number of verifiers |
| Votes.VoteOrderDoesNotMatter | smart-contract/src/protocol/MasjidProtocol.sol:172-194 | for every order in which all n verifiers vote: Verified iff n/2 + 1 support, Rejected iff n/2 + 1 oppose, Pending iff an exact tie |
| Votes.AddOnlyQuorumSafety | smart-contract/src/protocol/MasjidProtocol.sol:180-193 | in every run that removes no verifier while the masjid is pending, its attesters are current verifiers and both tallies are below the quorum while pending |
| Votes.OnlyTheVotedSideCanWin | smart-contract/src/protocol/MasjidProtocol.sol:188-193 | in such a state at most one tally reaches the quorum and only the side voted for wins, so the order of the two tests does not matter |
| Votes.VoteDecidesForTheOtherSideExactlyWhen | smart-contract/src/protocol/MasjidProtocol.sol:188-193 | with removals, a vote decides for the other side if and only if that side has already reached the quorum (and, for a rejection by a yes vote, the vote does not reach it) |
| Witnesses.RemovalLetsANoVoteVerify | smart-contract/src/protocol/VerifierRegistry.sol:51-63 | a run of thirteen steps from any initial state: accounts 1 and 2 vote yes, 3 and 4 no, 1 and 2 are struck off, and the no vote of account 5 verifies the masjid, three to two against |
| Witnesses.RejectedNameIsRegisteredAgain | smart-contract/src/protocol/MasjidProtocol.sol:136-142 | from any initial state: a registration, its rejection by the only verifier, and a second registration of the name, which commits and awaits votes |
| InstanceRuns.StepMove | smart-contract/src/protocol/MasjidProtocol.sol:196-283 | every step of the system leaves an instance alone, makes the very call that its transaction says, own or mirrored, with its caller, or creates it on the recorded terms and verifies it |
| InstanceRuns.InstancesRun | smart-contract/src/protocol/MasjidProtocol.sol:196-283 | what a run of the system does to one instance is a run of that instance: increasing steps of the system run, each with its call and the instance states before and after it, and no other step changes the instance |
| InstanceRuns.EveryPayoutHasEvidence | smart-contract/src/protocol/MasjidInstance.sol:226-260 | for every executed request of every deployed instance there is a step of the run of the system that set the flag, sent by the admin on record with the masjid verified on both sides, in time, with the threshold met by accounts that each sent their approval at an earlier step of that run |
| InstanceRuns.RequestIdsAreFewerThanSteps | back-end/src/indexer/instance.go:112-121 | a run has at most as many request ids as steps, so in fewer than 2^63 steps every id survives the int64 conversion |
| InstanceRuns.RevokedPaysNothing | smart-contract/src/protocol/MasjidProtocol.sol:253-258 | after a masjid is revoked no request of its instance gains an approval or is executed, in any continuation |
| Histories.RequestIsOnRecord | smart-contract/src/protocol/MasjidInstance.sol:188-224 | in every run each stored request of a deployed instance goes back to a step that proposed it, sent by a board member while both sides had the masjid verified, and its recipient, amount, note, proposer and times are what that step asked for |
| Histories.ProposedOnce | smart-contract/src/protocol/MasjidInstance.sol:202-216 | no second step of the run proposes the same request |
| Histories.PayoutWasAsked | smart-contract/src/protocol/MasjidInstance.sol:188-260 | what a step of the run pays is what an earlier step asked for, recipient and amount included |
| Histories.CancellationIsOnRecord | smart-contract/src/protocol/MasjidInstance.sol:262-271 | each canceled request was canceled by one step, sent by a holder of ADMIN_ROLE while it was not settled |
| Histories.StorageSaysWhatHappened | smart-contract/src/protocol/MasjidInstance.sol:188-271 | in every reachable state a request is stored iff some step proposed it, an account is marked iff it approved at some step, and a request is executed or canceled iff some step did that |
| Histories.ExecutionCommitsExactlyWhen | smart-contract/src/protocol/MasjidInstance.sol:243-260 | in every reachable state an execution commits iff the token pays, an admin of the instance sends it, the masjid is verified, the request was proposed and not settled at the steps before, it is in time, and those who approved at the steps before are at least the threshold |
| Histories.ApprovalCommitsExactlyWhen | smart-contract/src/protocol/MasjidInstance.sol:226-241 | an approval commits iff a board member sends it, the masjid is verified, the request was proposed and not settled, it is in time, and the member has not approved at a step before |
| Histories.CancellationCommitsExactlyWhen | smart-contract/src/protocol/MasjidInstance.sol:262-271 | a cancellation commits iff an admin of the instance sends it and the request was proposed and not settled, at any status and time |
| Histories.ProposalCommitsExactlyWhen | smart-contract/src/protocol/MasjidInstance.sol:188-224 | a proposal commits iff a board member sends it, the masjid is verified, and it names a recipient, an amount and a lifetime; it is then stored under the next id as it asks |
| Boards.BoardFollows | smart-contract/src/protocol/MasjidInstance.sol:273-290 | an account is on the board after a call iff the call put it there, by setBoardMember or a grant, or it was there and the call did not take it off |
| Boards.CounterFollows | smart-contract/src/protocol/MasjidInstance.sol:273-290 | the member count moves by one with each committed setBoardMember and with nothing else |
| Boards.CreationIsForTheMasjid | smart-contract/src/protocol/MasjidInstance.sol:108-156 | a new instance has the board, the token and the majority threshold its masjid was registered with, its proposer as admin, and the time of the vote that verified it |
| Boards.BoardIsTheSeated | smart-contract/src/protocol/MasjidInstance.sol:143-290 | in every run the board is exactly the accounts that some step seated and no step since has unseated |
| Boards.CreationIsOnRecord | smart-contract/src/protocol/MasjidProtocol.sol:196-218 | each deployed instance goes back to the vote that created it, and its masjid, its token and both its times are those of that vote for good |
| Boards.ThresholdIsTheLastSet | smart-contract/src/protocol/MasjidInstance.sol:292-302 | in every run the threshold is what the last step that set it set it to: the majority of the registered board, or an admin's value between one and the count |
| Boards.AdminRoleFollows | smart-contract/src/protocol/MasjidInstance.sol:304-313 | ADMIN_ROLE is held by nobody but the account it was last handed to, until that account renounces it |
| Boards.BoardChangeCommitsExactlyWhen | smart-contract/src/protocol/MasjidInstance.sol:273-290 | setBoardMember commits iff an admin of the instance seats somebody new, or takes one off a count above the threshold |
| Boards.CashInCommitsExactlyWhen | smart-contract/src/protocol/MasjidInstance.sol:170-186 | a cash-in commits iff the amount is not zero and the token moves it, from anybody at any status; the storage stays and one log names caller, amount and note |
| TokenContract.MockERC20.Mint | smart-contract/test/protocol/MasjidProtocol.t.sol:15-15 | in place, the ledger the specification gives, or no change on overflow |
| TokenContract.MockERC20.Approve | smart-contract/test/protocol/MasjidProtocol.t.sol:17-20 | in place, sets one allowance and nothing else |
| TokenContract.MockERC20.Transfer | smart-contract/test/protocol/MasjidProtocol.t.sol:22-27 | in place, the ledger of Transfer, or no change when the balance is short or the credit overflows |
| TokenContract.MockERC20.TransferFrom | smart-contract/test/protocol/MasjidProtocol.t.sol:29-36 | in place, the ledger of TransferFrom, with the allowance restored when the transfer reverts |
| InstanceContract.MasjidInstance.Create | smart-contract/src/protocol/MasjidInstance.sol:108-156 | the constructor with its loop: the storage and logs of Construct, or its error and no contract |
| InstanceContract.MasjidInstance.CashIn | smart-contract/src/protocol/MasjidInstance.sol:170-186 | takes the amount from the caller through the token, or changes neither storage nor ledger |
| InstanceContract.MasjidInstance.ProposeCashOut | smart-contract/src/protocol/MasjidInstance.sol:188-224 | new request with truncated expiry under the next id, or the first failing guard's error and no change |
| InstanceContract.MasjidInstance.ApproveCashOut | smart-contract/src/protocol/MasjidInstance.sol:226-241 | one approval recorded and counted, or an error and no change, a full counter included |
| InstanceContract.MasjidInstance.ExecuteCashOut | smart-contract/src/protocol/MasjidInstance.sol:243-260 | marks the request before paying it; a failed payment takes the mark back and leaves the ledger alone |
| InstanceContract.MasjidInstance.CancelCashOut | smart-contract/src/protocol/MasjidInstance.sol:262-271 | marks the request canceled unless it is unknown, executed or canceled |
| InstanceContract.MasjidInstance.SetBoardMember | smart-contract/src/protocol/MasjidInstance.sol:273-290 | adds or removes and counts; a removal that would drop the count below the threshold is undone after both writes |
| InstanceContract.MasjidInstance.SetCashOutThreshold | smart-contract/src/protocol/MasjidInstance.sol:292-302 | a new threshold between 1 and the member count, or no change |
| InstanceContract.MasjidInstance.SetAdmin | smart-contract/src/protocol/MasjidInstance.sol:304-313 | hands ADMIN_ROLE and the recorded admin over together |
| InstanceContract.MasjidInstance.SetStatus | smart-contract/src/protocol/MasjidInstance.sol:315-326 | writes the status and, the first time it is Verified, the time |
| InstanceContract.MasjidInstance.GrantRole | smart-contract/src/protocol/MasjidInstance.sol:136-141 | the role's admin adds one holder to one role, and no counter changes |
| InstanceContract.MasjidInstance.RevokeRole | smart-contract/src/protocol/MasjidInstance.sol:136-141 | the role's admin takes one holder from one role, and no counter changes |
| InstanceContract.MasjidInstance.RenounceRole | smart-contract/src/protocol/MasjidInstance.sol:136-141 | a caller who confirms its own address gives up one role, and no counter changes |
| ProtocolContracts.VerifierRegistry.TransferAuthority | smart-contract/src/protocol/VerifierRegistry.sol:33-38 | hands the authority over, or an error and no change |
| ProtocolContracts.VerifierRegistry.AddVerifier | smart-contract/src/protocol/VerifierRegistry.sol:40-49 | adds a new verifier to the set and the count together, or an error and no change |
| ProtocolContracts.VerifierRegistry.RemoveVerifier | smart-contract/src/protocol/VerifierRegistry.sol:51-59 | removes a verifier from the set and the count together, or an error and no change |
| ProtocolContracts.MasjidFactory.DeployMasjid | smart-contract/src/protocol/MasjidFactory.sol:27-57 | guards, a new contract at a new address and its entry; a constructor that reverts leaves entries, addresses and contracts as they were |
| ProtocolContracts.MasjidProtocol.Register | smart-contract/src/protocol/MasjidProtocol.sol:126-170 | enters the masjid under a new id and points the name index at it, or an error and no change |
| ProtocolContracts.MasjidProtocol.Attest | smart-contract/src/protocol/MasjidProtocol.sol:172-194 | the vote, the quorum test and the deployment or rejection it decides, across protocol, factory and instances; when the deployment reverts the recorded vote is taken back |
| ProtocolContracts.MasjidProtocol.Verified | smart-contract/src/protocol/MasjidProtocol.sol:196-218 | deploys, marks both sides verified and logs it, or an error and no change in any contract |
| ProtocolContracts.MasjidProtocol.TransferAdmin | smart-contract/src/protocol/MasjidProtocol.sol:226-237 | changes the admin in protocol and instance together or in neither |
| ProtocolContracts.MasjidProtocol.SetStatus | smart-contract/src/protocol/MasjidProtocol.sol:272-283 | changes the status in protocol and instance together or in neither |
| ProtocolContracts.MasjidProtocol.Flag | smart-contract/src/protocol/MasjidProtocol.sol:239-244 | Verified to Flagged on both sides, by the admin only |
| ProtocolContracts.MasjidProtocol.Unflag | smart-contract/src/protocol/MasjidProtocol.sol:246-251 | Flagged to Verified on both sides, by the admin only |
| ProtocolContracts.MasjidProtocol.Revoke | smart-contract/src/protocol/MasjidProtocol.sol:253-258 | Verified or Flagged to Revoked on both sides, by the admin only |
| Projection.HandleWrites | back-end/src/service/event_service.go:24-167 | on tables that have the row an update is about, a handler overwrites exactly the columns `Writes` names, with values that depend on the log alone |
| Projection.CellsDetermine | back-end/src/repository/masjid_repository.go:85-134 | tables that agree on every group of columns are equal |
| Replay.DeliverOne | back-end/src/service/event_service.go:24-167 | handling the next log of tables complete up to it makes them complete past it, rows reset by an earlier replay included |
| Replay.Rewind | back-end/src/indexer/indexer.go:142-152 | tables complete up to a log are complete up to every earlier one |
| Replay.AtLeastOnceIsExactlyOnce | back-end/src/service/event_service.go:24-167 | for every schedule of passes that each start no later than the last one stopped and together reach the end, the tables are those of handling the log once |
| Replay.ReplayIsIdempotent | back-end/src/service/event_service.go:24-167 | for all i <= j, handling log[..j] and then log[i..] gives the tables of handling the log once |
| Replay.InterruptedReplayIsHarmlessExactlyWhen | back-end/src/service/event_service.go:24-43 | replaying log[i..j] on complete tables and stopping changes nothing if and only if what it writes last to each cell is what the whole log writes last there |
| Witnesses.InterruptedReplayCanLoseAnUpdate | back-end/src/service/event_service.go:24-43 | on the tables of a run of three steps in which the only verifier rejects a masjid, replaying its log up to the registration leaves the rejected masjid pending |
| Refinement.StepAgrees | back-end/src/service/event_service.go:24-167 | handling the logs of one transaction, of whatever call, takes tables that agree with the storage before it to tables that agree with the storage after it |
| Refinement.TablesAgreeWithContracts | back-end/src/service/event_service.go:24-167 | for every run: one row per masjid with the protocol's status, tallies, instance and threshold; one attest row per vote, the supporting ones as many as the yes votes; one row per request with its flags and its times as int64; vote rows exactly for the approvers |
| Refinement.ExpiryColumnIsExactExactlyWhen | back-end/src/indexer/instance.go:112-141 | after every run the expiry and proposal times of a row are the contract's if and only if those are below 2^63; the expiry is negative otherwise |
| Refinement.ProposalWithNegativeRow | back-end/src/indexer/instance.go:112-141 | a proposal with a lifetime of 2^63 commits and its row gets a negative expiry |
| Refinement.RunLogsAreWellFormed | smart-contract/src/protocol/MasjidProtocol.sol:126-283 | in the log of every run an update follows the registration or proposal it is about |
| Refinement.DeliveredTablesAgree | back-end/src/indexer/indexer.go:118-152 | the same agreement after any schedule of passes with rewinds |
| Rows.StepSays | back-end/src/service/event_service.go:24-167 | of every group of columns the logs of a transaction write exactly what the change of the storage, the caller and the block time say, and nothing else |
| Rows.RowsSayWhatHappened | back-end/src/service/event_service.go:24-167 | after any run every group of columns holds what the last committed call about it made it: statuses, tallies and terms with the time, executor, canceler, voter and block time of the call; there is no row if no call was about it |
| Chronicle.LogsAreTrue | smart-contract/src/protocol/MasjidProtocol.sol:126-283 | every log of a committed transaction is true: whoever it names did it, and each value it carries is what the storage held before or holds now |
| Chronicle.StewardsAreTold | smart-contract/src/protocol/VerifierRegistry.sol:33-63 | authority, verifiers and masjid admins do not change without the log that says so |
| Chronicle.InstancesAreTold | smart-contract/src/protocol/MasjidInstance.sol:273-302 | neither do board and threshold of a deployed instance, unless a role is granted or taken directly |
| Events.MasjidRepository.Upsert | back-end/src/repository/masjid_repository.go:85-97 | writes every column but the proposer of an existing row, or nothing when the database fails |
| Events.MasjidRepository.SetStatus | back-end/src/repository/masjid_repository.go:99-111 | writes the status and, when given, the time; a missing row or a failure changes nothing |
| Events.MasjidRepository.SetVerified | back-end/src/repository/masjid_repository.go:113-123 | writes instance, status and time of an existing row |
| Events.MasjidRepository.SetAttestCounts | back-end/src/repository/masjid_repository.go:125-134 | writes both tallies of an existing row |
| Events.MasjidRepository.ListInstanceAddresses | back-end/src/repository/masjid_repository.go:144-151 | exactly the instance addresses that are set, or an error |
| Events.VerifierAttestRepository.Upsert | back-end/src/repository/verifier_attest_repository.go:52-62 | one row per masjid and verifier, overwritten |
| Events.CashOutRepository.UpsertRequest | back-end/src/repository/cash_out_repository.go:42-54 | one row per instance and request, overwritten |
| Events.CashOutRepository.UpsertVote | back-end/src/repository/cash_out_repository.go:56-65 | one row per instance, request and approver, overwritten |
| Events.CashOutRepository.MarkExecuted | back-end/src/repository/cash_out_repository.go:67-76 | sets the flag, executor and time of an existing row only |
| Events.CashOutRepository.MarkCanceled | back-end/src/repository/cash_out_repository.go:78-87 | sets the flag, canceler and time of an existing row only |
| Events.MasjidRepository.FindByID | back-end/src/repository/masjid_repository.go:25-32 | the row with the id if there is one, or an error |
| Events.MasjidRepository.FindByInstance | back-end/src/repository/masjid_repository.go:45-54 | a row with the address exactly when some row has it, or an error |
| Events.EventService.HandleMasjidRegistered | back-end/src/service/event_service.go:24-42 | a fresh pending row with the event's terms, or nothing on an error |
| Events.EventService.HandleMasjidRejected | back-end/src/service/event_service.go:69-71 | the projection of the rejection, or nothing on an error |
| Events.EventService.HandleMasjidVerified | back-end/src/service/event_service.go:73-89 | without an error the projection; an error leaves the tables either untouched or already projected |
| Events.EventService.HandleStatus | back-end/src/service/event_service.go:91-98 | the projection of the status change, or nothing on an error |
| Events.EventService.HandleCashOutProposed | back-end/src/service/event_service.go:123-146 | a fresh request row, or nothing when the lookup or the write fails |
| Events.EventService.HandleCashOutApproved | back-end/src/service/event_service.go:148-159 | the approver's vote row, or nothing on an error |
| Events.EventService.HandleCashOutExecuted | back-end/src/service/event_service.go:161-163 | the projection of the execution, or nothing on an error |
| Events.EventService.HandleCashOutCanceled | back-end/src/service/event_service.go:165-167 | the projection of the cancellation, or nothing on an error |
| Events.EventService.HandleMasjidAttested | back-end/src/service/event_service.go:44-67 | without an error, both writes of the projection; with one, no masjid row changes and at most the attest row is written |
| Events.EventService.HandleProtocolLog | back-end/src/indexer/protocol.go:42-66 | a protocol log handled without an error is the projection of that log; after an error each table is the old one or the projected one; request tables are untouched; there is an error iff a database call failed |
| Events.EventService.HandleInstanceLog | back-end/src/indexer/instance.go:47-77 | an instance log handled without an error is the projection of that log, expiry truncated to int64; with one, nothing changes; there is an error iff a database call failed |
| Chain.FetchIsARange | back-end/src/indexer/rpc.go:92-99 | asking for a block range gives the matching logs of one stretch of the chain, in order |
| Chain.ChunksTile | back-end/src/indexer/protocol.go:25-72 | the ranges of a pass have 1 to 500 blocks, each starts where the one before ended, and they run from the first block to the head |
| Chain.EachBlockInOneChunk | back-end/src/indexer/protocol.go:25-72 | every block from the start to the head is in exactly one range, and no other block in any |
| Chain.AdvanceMasjids | back-end/src/indexer/protocol.go:25-72 | handling the protocol's logs of a stretch moves the masjid half of the tables past it, whatever the other half holds |
| Chain.AdvanceRequests | back-end/src/indexer/instance.go:32-82 | handling the logs of a list that has every instance telling something in a stretch moves the request half of the tables past it |
| Chain.HalvesMakeTheWhole | back-end/src/indexer/indexer.go:118-140 | both halves delivered to the end are the tables of handling the whole log once |
| Chain.ListIsComplete | back-end/src/indexer/indexer.go:118-140 | once the protocol's logs up to a block are handled, the listed instances include every one that emitted a log up to that block, the block of its deployment included |
| Chain.FetchIsLosslessExactlyWhen | back-end/src/indexer/instance.go:12-82 | on tables that hold exactly what the log says up to a point, handling the fetched logs of the next stretch gives exactly what the log says up to its end if and only if every instance that tells something in it is listed |
| Chain.UnlistedInstanceIsLost | back-end/src/indexer/instance.go:12-82 | what an unlisted instance told in a fetched stretch is never known again, whatever later passes list and handle |
| Chain.ListedWasNamed | back-end/src/repository/masjid_repository.go:144-151 | an instance is listed only if the log that names it was handled |
| Facts.KnownExactlyWhenTold | back-end/src/service/event_service.go:123-167 | the tables of a prefix of a log know a request, an approval, an execution or a cancellation exactly when a log in it tells it |
| Witnesses.FailedProtocolPassLosesAProposal | back-end/src/indexer/indexer.go:118-140 | a run of six steps from any initial state, mined in blocks 1 and 600: a poll whose protocol pass gets no further than block 499 lists the first instance only, and its instance pass loses the proposal on the second |
| Disclosure.StepIsTimely | smart-contract/src/protocol/MasjidProtocol.sol:126-283 | only deployed instances emit instance logs, ids are registered when new and verified when they have no instance |
| Disclosure.NamedOnce | smart-contract/src/protocol/MasjidProtocol.sol:196-218 | once a masjid has its instance no later log of the run writes the instance column of its row |
| Disclosure.RunLogsTellNews | smart-contract/src/protocol/MasjidInstance.sol:188-271 | in the log of every run no log tells what an earlier one has told |
| Disclosure.DeployedExactlyWhenEmitted | smart-contract/src/protocol/MasjidInstance.sol:143-155 | after every run the deployed instances are exactly those that have emitted a log |
| Disclosure.ListsAllDeployedExactlyWhenComplete | back-end/src/indexer/indexer.go:118-140 | a list lacks no emitter of the blocks before a given one if and only if it has every instance deployed in them |
| Disclosure.RunChainIsSound | smart-contract/src/protocol/MasjidProtocol.sol:196-218 | for every run and every assignment of transactions to blocks, updates follow what they update, nothing is told twice, and by the end of each block every instance that emitted a log is named, once and for all, by a masjid's row |
| Disclosure.CaughtUpAgrees | back-end/src/indexer/indexer.go:118-140 | tables that both passes have brought up to a head past the last transaction of a run, as a poll without failures does, agree with the contracts at the end of the run |
| Indexing.CheckpointRepository.Get | back-end/src/repository/checkpoint_repository.go:15-22 | the saved block if there is one, or an error |
| Indexing.CheckpointRepository.Upsert | back-end/src/repository/checkpoint_repository.go:24-26 | saves the block or fails; saving without having read the row's id fails when there is a row |
| Indexing.Indexer.FromBlock | back-end/src/indexer/indexer.go:142-152 | the block after the checkpoint, or the start block when there is none; the start block when the read fails, which is noted |
| Indexing.Indexer.SaveCheckpoint | back-end/src/indexer/indexer.go:154-162 | saves the block for this pass, or changes nothing and notes it; it fails only when the database does |
| Indexing.Indexer.GetLogs | back-end/src/indexer/rpc.go:92-99 | the matching logs of the asked block range, recorded as fetched, or an error and no record |
| Indexing.Indexer.HandleProtocolLogs | back-end/src/indexer/protocol.go:42-66 | calls the handler of every log in order, failures being skipped: of the logs no more are left half-handled or unhandled than database calls fail; without a failure the tables are the projection of all of them |
| Indexing.Indexer.HandleInstanceLogs | back-end/src/indexer/instance.go:47-77 | likewise for instance logs, leaving the masjid tables alone |
| Indexing.Indexer.ProcessProtocol | back-end/src/indexer/protocol.go:11-73 | terminates; fetches the chunks from some block not after its checkpoint on, all of them unless the node refuses one; without a failed database call the checkpoint ends just after the last range fetched, and after a pass without an error just after the head unless a save failed; then, unless something named failed, the masjid half is delivered to the head |
| Indexing.Indexer.ProcessInstances | back-end/src/indexer/instance.go:11-83 | every fetch of the pass asks for the instances listed when it started; the checkpoint moves as in the protocol pass, and not at all when nothing is listed; it delivers the request half to the head when the list includes all emitters of what it fetched; and on exact tables it loses nothing if and only if the list includes every instance that tells something there |
| Indexing.Indexer.Tick | back-end/src/indexer/indexer.go:118-140 | a poll sleeps iff there is no safe head; otherwise both passes advance their checkpoints up to it as ProcessProtocol and ProcessInstances say, asking for no later block; each error goes back to a refused fetch or a failed database call; a poll whose protocol pass succeeds lists every instance that emitted anything up to the safe head; if both passes succeed the tables hold everything up to it; and the instance pass is lossless under the exact condition of ProcessInstances |
| Indexing.Indexer.Run | back-end/src/indexer/indexer.go:93-116 | over any sequence of polls and failures every block from the start block to each checkpoint was in a successful fetch; when nothing failed, each checkpoint is just after the furthest head its pass was polled for; with no failed protocol pass and careful protocol handling no instance log up to the instance checkpoint was missed, and with a careful instance pass the tables hold everything up to the checkpoints |
| Indexing.NoneMissed | back-end/src/indexer/instance.go:32-82 | a covered instance log came back with some fetch when every fetch asked for all emitters of its blocks |
| Abi.ParseHexOf | back-end/src/indexer/decode.go:77-93 | the number parsed from the digits of a byte string is its big-endian value |
| Abi.HexDecodeOf | back-end/src/indexer/decode.go:99-116 | decoding the digits of a byte string gives it back |
| Abi.SlotReadsInt | back-end/src/indexer/decode.go:49-84 | a slot that holds a word below 2^63 reads as its value |
| Abi.SlotReadsInt64 | back-end/src/indexer/decode.go:77-93 | a slot read as an int64 is the low 64 bits of its word as a signed number, the word itself if and only if it is below 2^63 |
| Abi.AmountDecodes | back-end/src/indexer/decode.go:63-70 | an amount slot reads as the decimal of its whole word |
| Abi.DecimalRoundTrip | back-end/src/indexer/decode.go:63-70 | different amounts have different decimals |
| Abi.RequestIdRoundTrip | back-end/src/indexer/decode.go:40-47 | a request id is recovered from its topic if and only if it is below 2^63 |
| Abi.ProposedRoundTrip | back-end/src/indexer/instance.go:112-141 | amount, note hash and expiry decoded from CashOutProposed's data are the encoded ones, the expiry as the projection stores it |
| Abi.ApprovedRoundTrip | back-end/src/indexer/instance.go:143-166 | the tally decoded from CashOutApproved's data is the one the projection stores |
| Abi.StatusRoundTrip | back-end/src/indexer/protocol.go:230-250 | the status string decoded from MasjidStatusUpdated's data is the one the projection stores |
| Abi.ThresholdRoundTrip | back-end/src/indexer/protocol.go:119-150 | the threshold computed from MasjidRegistered's decoded board length is the projection's |
| Abi.StringDecodes | back-end/src/indexer/decode.go:99-116 | a string encoded anywhere at a word boundary decodes to itself through its head slot |
| Abi.ArrayLengthDecodes | back-end/src/indexer/decode.go:146-150 | an array's length is read through its head slot |
| Abi.AddressDecodes | back-end/src/indexer/decode.go:58-61 | an address slot reads as that address in lower case |
| Abi.RegisteredRoundTrip | back-end/src/indexer/protocol.go:119-134 | for all names, URIs, addresses and boards whose encoding fits Go's ints, what the handler decodes from MasjidRegistered's data is what the contract encoded |
| Abi.AttestedRoundTrip | back-end/src/indexer/protocol.go:152-167 | likewise for the vote and both tallies of MasjidAttested |
| Abi.TopicRoundTrip | back-end/src/indexer/decode.go:24-30 | an indexed address is recovered from its topic |

## Left out

- Front-end, documentation site, HTTP handlers, sessions and signatures, deployment scripts, migrations and views: no state of the protocol.
- OpenZeppelin AccessControl is not part of this model's sources: roles are one set of holders per role with the role admins the constructor sets, granting and revoking are idempotent, and its own events and role ids beyond the four are not modelled.
- setMetadataUri and the name and URI copies in the instance: nothing calls setMetadataUri with PROTOCOL_ROLE, and nothing reads the copies.
- Verifier labels, the users and board_members tables and the registry pass that feeds them: written by several streams and the API, so no log determines them; that a write to the users table may fail is modelled (`Events.UserRepository`). The registry pass is a copy of the protocol pass's loop.
- The cash_ins table and the balance in the CashIn event: rows are keyed by transaction hash alone, which this model does not have.
- Columns the indexer does not maintain from the chain (approvals of a request, the admin after a transfer, verified_at after an unflag, updated_at) and the block, transaction and masjid columns of rows.
- The zero checks of the constructors of registry, protocol and factory, and a direct call of the factory's deployMasjid by an account, which always reverts.
- Tokens that call back into the protocol while an instance pays: steps of the whole system treat a token call as one answer. Reentrant calls to one instance are covered by `Reentrancy`.
- InstanceContract.MasjidInstance.ExecuteCashOut: in place, the token is the one of the contract tests, which does not call back, because a call-back is a call of any method on any contract; `Reentrancy` covers call-backs on values.
- The timestamp cache and the timestamp 0 that a log gets when its block's time cannot be fetched; chain reorganisations; the range of the database's timestamps.
- Request ids of 2^63 and more, which the indexer truncates: the tables are keyed by the whole id. `InstanceRuns.RequestIdsAreFewerThanSteps` shows that no run of fewer than 2^63 steps has one.
- Indexing.Indexer.Run: a finite sequence of polls stands for the loop that runs until it is stopped.
- Heads within 500 blocks of 2^64, where the chunk arithmetic would wrap around.
- Abi.ParseHexOf: digits only; a sign in the input, which Go would accept, never occurs in what a node returns.
- Cost of calls: a revert for lack of gas is a transaction that does not happen.
