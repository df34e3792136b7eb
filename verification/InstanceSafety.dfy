/** What one MasjidInstance keeps along every run: any callers, any calls, any number of them. */
module InstanceSafety {
  import opened Types
  import opened Instance

  // ---- The invariant ------------------------------------------------------------------------

  ghost predicate RequestInv(s: State, id: nat)
    requires id in s.cashOutById
  {
    var r := s.cashOutById[id];
    && 0 < r.createdAt < TWO_64
    && 0 <= r.expiresAt < TWO_64
    && r.approvals == |s.Approvers(id)| <= MAX_UINT32
    && !(r.executed && r.canceled)
    && (r.executed ==> 1 <= r.approvals)
    && r.to != Zero
    && 0 < r.amount
  }

  ghost predicate Inv(s: State) {
    && 1 <= s.cashOutThreshold <= s.boardMemberCount
    && (forall id :: id in s.cashOutById <==> 1 <= id <= s.cashOutNonce)
    && (forall id :: id in s.approvers ==> id in s.cashOutById)
    && (forall id :: id in s.cashOutById ==> RequestInv(s, id))
  }

  ghost predicate BornAs(s: State, protocol: Address, id: MasjidId, admin: Address, stablecoin: Address,
                         board: seq<Address>, threshold: nat, now: Timestamp) {
    var r := Construct(protocol, id, admin, stablecoin, board, threshold, now);
    r.Ok? && r.value.state == s
  }

  ghost predicate Born(s: State) {
    exists protocol, id, admin, stablecoin, board, threshold, now ::
      BornAs(s, protocol, id, admin, stablecoin, board, threshold, now)
  }

  lemma BornInv(s: State)
    requires Born(s)
    ensures Inv(s)
    ensures s.boardMemberCount == |s.roles.board|
    ensures s.cashOutNonce == 0 && s.cashOutById == map[] && s.approvers == map[]
  {
    var protocol, id, admin, stablecoin, board, threshold, now :|
      BornAs(s, protocol, id, admin, stablecoin, board, threshold, now);
    BoardAccepted(board);
    assert s.roles.board == ToSet(board);
    CardinalityOfDistinct(board);
  }

  /** `s'` differs from `s` at most in request `id` and its approvers. */
  ghost predicate OnlyRequest(s: State, s': State, id: nat) {
    && (s'.cashOutThreshold, s'.boardMemberCount) == (s.cashOutThreshold, s.boardMemberCount)
    && id in s'.cashOutById
    && s'.cashOutById == s.cashOutById[id := s'.cashOutById[id]]
    && s'.approvers.Keys <= s.approvers.Keys + {id}
    && forall k :: k != id ==> s'.Approvers(k) == s.Approvers(k)
  }

  lemma OneRequestInv(s: State, s': State, id: nat)
    requires Inv(s) && OnlyRequest(s, s', id) && RequestInv(s', id)
    requires if id in s.cashOutById then s'.cashOutNonce == s.cashOutNonce
             else id == s'.cashOutNonce == s.cashOutNonce + 1
    ensures Inv(s')
  {
  }

  lemma ProposeKeepsInv(s: State, caller: Address, now: Timestamp, to: Address, amount: nat, noteHash: nat, ttl: nat)
    requires Inv(s) && ttl < TWO_64
    requires ProposeCashOut(s, caller, now, to, amount, noteHash, ttl).Ok?
    ensures Inv(ProposeCashOut(s, caller, now, to, amount, noteHash, ttl).value.state)
  {
  }

  lemma ApproveKeepsInv(s: State, caller: Address, now: Timestamp, id: nat)
    requires Inv(s) && ApproveCashOut(s, caller, now, id).Ok?
    ensures Inv(ApproveCashOut(s, caller, now, id).value.state)
  {
    var s' := ApproveCashOut(s, caller, now, id).value.state;
    assert RequestInv(s, id);
    assert s'.Approvers(id) == s.Approvers(id) + {caller};
    OneRequestInv(s, s', id);
  }

  lemma BeginExecutionKeepsInv(s: State, caller: Address, now: Timestamp, id: nat)
    requires Inv(s) && BeginExecution(s, caller, now, id).Ok?
    ensures Inv(BeginExecution(s, caller, now, id).value)
  {
  }

  lemma CancelKeepsInv(s: State, caller: Address, id: nat)
    requires Inv(s) && CancelCashOut(s, caller, id).Ok?
    ensures Inv(CancelCashOut(s, caller, id).value.state)
  {
  }

  /** The calls that are not about a cash-out request leave all of them alone. */
  predicate Governance(c: Call) { !c.CallPropose? && !c.CallApprove? && !c.CallExecute? && !c.CallCancel? }

  ghost predicate SameRequests(s: State, s': State) {
    (s'.cashOutById, s'.approvers, s'.cashOutNonce) == (s.cashOutById, s.approvers, s.cashOutNonce)
  }

  lemma GovernanceFrame(s: State, tx: Tx)
    requires ValidCall(tx.call) && Governance(tx.call)
    requires 1 <= s.cashOutThreshold <= s.boardMemberCount
    ensures SameRequests(s, Next(s, tx))
    ensures 1 <= Next(s, tx).cashOutThreshold <= Next(s, tx).boardMemberCount
  {
  }

  lemma SameRequestsInv(s: State, s': State)
    requires Inv(s) && SameRequests(s, s')
    requires 1 <= s'.cashOutThreshold <= s'.boardMemberCount
    ensures Inv(s')
  {
  }

  lemma StepKeepsInv(s: State, tx: Tx)
    requires Inv(s) && ValidCall(tx.call)
    ensures Inv(Next(s, tx))
  {
    if Execute(s, tx).Ok? {
      match tx.call
      case CallPropose(to, amount, noteHash, ttl) => ProposeKeepsInv(s, tx.caller, tx.now, to, amount, noteHash, ttl);
      case CallApprove(id) => ApproveKeepsInv(s, tx.caller, tx.now, id);
      case CallExecute(id, _) => BeginExecutionKeepsInv(s, tx.caller, tx.now, id);
      case CallCancel(id) => CancelKeepsInv(s, tx.caller, id);
      case _ =>
        GovernanceFrame(s, tx);
        SameRequestsInv(s, Next(s, tx));
    }
  }

  // ---- Runs ---------------------------------------------------------------------------------

  /** `ss[i]` is the state before `txs[i]`; block time never goes back. */
  ghost predicate IsRun(ss: seq<State>, txs: seq<Tx>) {
    && |ss| == |txs| + 1
    && Born(ss[0])
    && (forall i :: 0 <= i < |txs| ==> ValidCall(txs[i].call) && ss[i + 1] == Next(ss[i], txs[i]))
    && (forall i, j :: 0 <= i <= j < |txs| ==> txs[i].now <= txs[j].now)
  }

  /** The threshold stays between one and the member count, every request's tally is the number of
      accounts that approved it, and no request is both executed and canceled. */
  lemma {:induction false} RunKeepsInv(ss: seq<State>, txs: seq<Tx>, n: nat)
    requires IsRun(ss, txs) && n <= |txs|
    ensures Inv(ss[n])
  {
    if n == 0 {
      BornInv(ss[0]);
    } else {
      RunKeepsInv(ss, txs, n - 1);
      StepKeepsInv(ss[n - 1], txs[n - 1]);
    }
  }

  // ---- Requests only move forward -----------------------------------------------------------

  /** From `s` to `s'` request `id` keeps its terms; its approvals and settlement only grow, and once
      settled nothing about it changes. */
  ghost predicate Advances(s: State, s': State, id: nat) {
    var r, r' := s.Request(id), s'.Request(id);
    && id in s'.cashOutById
    && r'.(approvals := r.approvals, executed := r.executed, canceled := r.canceled) == r
    && s.Approvers(id) <= s'.Approvers(id)
    && (r.executed || r.canceled ==> r' == r && s'.Approvers(id) == s.Approvers(id))
  }

  lemma ApproveAdvances(s: State, caller: Address, now: Timestamp, approved: nat, id: nat)
    requires id in s.cashOutById && ApproveCashOut(s, caller, now, approved).Ok?
    ensures Advances(s, ApproveCashOut(s, caller, now, approved).value.state, id)
  {
  }

  lemma SettlementAdvances(s: State, tx: Tx, id: nat)
    requires Inv(s) && id in s.cashOutById
    requires tx.call.CallExecute? || tx.call.CallCancel?
    ensures Advances(s, Next(s, tx), id)
  {
  }

  lemma StepAdvances(s: State, tx: Tx, id: nat)
    requires Inv(s) && ValidCall(tx.call) && id in s.cashOutById
    ensures Advances(s, Next(s, tx), id)
  {
    if Execute(s, tx).Ok? {
      match tx.call
      case CallPropose(_, _, _, _) =>
      case CallApprove(approved) => ApproveAdvances(s, tx.caller, tx.now, approved, id);
      case CallExecute(_, _) => SettlementAdvances(s, tx, id);
      case CallCancel(_) => SettlementAdvances(s, tx, id);
      case _ => GovernanceFrame(s, tx);
    }
  }

  /** Executed and canceled are permanent, and the terms of a request never change, in every run. */
  lemma {:induction false} RequestsAdvance(ss: seq<State>, txs: seq<Tx>, m: nat, n: nat, id: nat)
    requires IsRun(ss, txs) && m <= n <= |txs|
    requires id in ss[m].cashOutById
    ensures Advances(ss[m], ss[n], id)
  {
    if m == n {
    } else {
      RequestsAdvance(ss, txs, m, n - 1, id);
      RunKeepsInv(ss, txs, n - 1);
      StepAdvances(ss[n - 1], txs[n - 1], id);
    }
  }

  // ---- Evidence behind every payout ---------------------------------------------------------

  lemma {:induction false} CreatedInThePast(ss: seq<State>, txs: seq<Tx>, n: nat, id: nat)
    requires IsRun(ss, txs) && n <= |txs|
    requires id in ss[n].cashOutById
    ensures 0 < n && ss[n].cashOutById[id].createdAt <= txs[n - 1].now
  {
    if n == 0 {
      BornInv(ss[0]);
    } else if id in ss[n - 1].cashOutById {
      CreatedInThePast(ss, txs, n - 1, id);
      RunKeepsInv(ss, txs, n - 1);
      StepAdvances(ss[n - 1], txs[n - 1], id);
      assert txs[n - 2].now <= txs[n - 1].now;
    }
  }

  /** Step `j` of the run is the approval of `id` by `a`: a board member then, on a verified instance,
      inside the request's lifetime. */
  ghost predicate ApprovedAt(ss: seq<State>, txs: seq<Tx>, j: nat, id: nat, a: Address)
    requires j < |txs| < |ss|
  {
    && txs[j].caller == a
    && txs[j].call == CallApprove(id)
    && a in ss[j].roles.board
    && ss[j].status == Verified
    && ss[j].Request(id).createdAt <= txs[j].now <= ss[j].Request(id).expiresAt
    && a !in ss[j].Approvers(id) && a in ss[j + 1].Approvers(id)
  }

  /** A step that adds an approver is that account's own approval, with every guard met. */
  lemma NewApproverApproved(s: State, tx: Tx, id: nat, a: Address)
    requires Inv(s) && ValidCall(tx.call)
    requires a !in s.Approvers(id) && a in Next(s, tx).Approvers(id)
    ensures id in s.cashOutById
    ensures tx.caller == a && tx.call == CallApprove(id)
    ensures a in s.roles.board && s.status == Verified
    ensures tx.now <= s.Request(id).expiresAt
    ensures Advances(s, Next(s, tx), id)
  {
    if Governance(tx.call) {
      GovernanceFrame(s, tx);
      assert false;
    } else {
      assert tx.call == CallApprove(id);
      StepAdvances(s, tx, id);
    }
  }

  lemma ExecutionExecutes(s: State, caller: Address, now: Timestamp, executed: nat, id: nat)
    requires BeginExecution(s, caller, now, executed).Ok?
    requires !s.Request(id).executed && BeginExecution(s, caller, now, executed).value.Request(id).executed
    ensures executed == id && caller in s.roles.admin && s.status == Verified
    ensures s.Request(id).createdAt != 0 && now <= s.Request(id).expiresAt
    ensures s.cashOutThreshold <= s.Request(id).approvals
    ensures var s' := BeginExecution(s, caller, now, executed).value;
            s'.Request(id) == s.Request(id).(executed := true) && s'.Approvers(id) == s.Approvers(id)
  {
  }

  lemma OtherRequestCallsExecuteNothing(s: State, tx: Tx, id: nat)
    requires ValidCall(tx.call) && (tx.call.CallPropose? || tx.call.CallApprove? || tx.call.CallCancel?)
    ensures Next(s, tx).Request(id).executed ==> s.Request(id).executed
  {
    hide BeginExecution, SetBoardMember, SetCashOutThreshold, SetAdmin, SetStatus, GrantRole, RevokeRole;
    hide RenounceRole, CashIn;
  }

  /** A step that sets `executed` is a paid execution, with every guard met. */
  lemma NewlyExecuted(s: State, tx: Tx, id: nat)
    requires Inv(s) && ValidCall(tx.call)
    requires !s.Request(id).executed && Next(s, tx).Request(id).executed
    ensures id in s.cashOutById
    ensures tx.call == CallExecute(id, true) && tx.caller in s.roles.admin
    ensures s.status == Verified && tx.now <= s.Request(id).expiresAt
    ensures s.cashOutThreshold <= s.Request(id).approvals
    ensures Next(s, tx).Request(id) == s.Request(id).(executed := true)
    ensures Next(s, tx).Approvers(id) == s.Approvers(id)
  {
    hide Inv, BeginExecution, ProposeCashOut, ApproveCashOut, CancelCashOut;
    match tx.call
    case CallExecute(executed, _) => ExecutionExecutes(s, tx.caller, tx.now, executed, id);
    case CallPropose(_, _, _, _) => OtherRequestCallsExecuteNothing(s, tx, id);
    case CallApprove(_) => OtherRequestCallsExecuteNothing(s, tx, id);
    case CallCancel(_) => OtherRequestCallsExecuteNothing(s, tx, id);
    case _ =>
  }

  /** Every recorded approver of `id` in `ss[n]` approved it at some earlier step. */
  lemma {:induction false} ApprovalEvidence(ss: seq<State>, txs: seq<Tx>, n: nat, id: nat, a: Address) returns (j: nat)
    requires IsRun(ss, txs) && n <= |txs|
    requires a in ss[n].Approvers(id)
    ensures j < n && ApprovedAt(ss, txs, j, id, a)
    ensures ss[j].Request(id).createdAt == ss[n].Request(id).createdAt
    ensures ss[j].Request(id).expiresAt == ss[n].Request(id).expiresAt
  {
    if n == 0 {
      BornInv(ss[0]);
      assert false;
    } else {
      RunKeepsInv(ss, txs, n - 1);
      if a in ss[n - 1].Approvers(id) {
        j := ApprovalEvidence(ss, txs, n - 1, id, a);
        StepAdvances(ss[n - 1], txs[n - 1], id);
      } else {
        j := n - 1;
        NewApproverApproved(ss[j], txs[j], id, a);
        CreatedInThePast(ss, txs, j, id);
        assert txs[j - 1].now <= txs[j].now;
      }
    }
  }

  /** Step `k` of the run paid `id` out: by an admin, on a verified instance, in time, and with at least
      the threshold of that moment in distinct accounts that had each approved as `ApprovedAt` says. */
  ghost predicate ExecutedAt(ss: seq<State>, txs: seq<Tx>, k: nat, id: nat)
    requires k < |txs| < |ss|
  {
    && txs[k].call == CallExecute(id, true)
    && txs[k].caller in ss[k].roles.admin
    && ss[k].status == Verified
    && txs[k].now <= ss[k].Request(id).expiresAt
    && !ss[k].Request(id).executed && ss[k + 1].Request(id).executed
    && 1 <= ss[k].cashOutThreshold <= |ss[k].Approvers(id)|
    && forall a :: a in ss[k].Approvers(id) ==> exists j :: 0 <= j < k && ApprovedAt(ss, txs, j, id, a)
  }

  /** In every run an executed request was paid out by exactly such a step, and neither its terms nor
      its approvers have changed since. */
  lemma {:induction false} ExecutionEvidence(ss: seq<State>, txs: seq<Tx>, n: nat, id: nat) returns (k: nat)
    requires IsRun(ss, txs) && n <= |txs|
    requires ss[n].Request(id).executed
    ensures k < n && ExecutedAt(ss, txs, k, id)
    ensures ss[n].Request(id) == ss[k].Request(id).(executed := true)
    ensures ss[n].Approvers(id) == ss[k].Approvers(id)
  {
    hide Execute;
    if n == 0 {
      BornInv(ss[0]);
      assert false;
    } else {
      RunKeepsInv(ss, txs, n - 1);
      if ss[n - 1].Request(id).executed {
        k := ExecutionEvidence(ss, txs, n - 1, id);
        StepAdvances(ss[n - 1], txs[n - 1], id);
      } else {
        k := n - 1;
        NewlyExecuted(ss[k], txs[k], id);
        assert RequestInv(ss[k], id);
        forall a | a in ss[k].Approvers(id) ensures exists j :: 0 <= j < k && ApprovedAt(ss, txs, j, id, a) {
          var j := ApprovalEvidence(ss, txs, k, id, a);
        }
      }
    }
  }

  lemma NonceGrowsByAtMostOne(s: State, tx: Tx)
    requires ValidCall(tx.call)
    ensures s.cashOutNonce <= Next(s, tx).cashOutNonce <= s.cashOutNonce + 1
  {
  }

  // ---- Expiry arithmetic --------------------------------------------------------------------

  /** The stored expiry is the intended one, later than the creation, exactly when the sum fits a
      uint64; otherwise the cast puts it before the creation. */
  lemma ExpiryOfProposal(s: State, caller: Address, now: Timestamp, to: Address, amount: nat, noteHash: nat, ttl: nat)
    requires ttl < TWO_64
    requires ProposeCashOut(s, caller, now, to, amount, noteHash, ttl).Ok?
    ensures var s' := ProposeCashOut(s, caller, now, to, amount, noteHash, ttl).value.state;
            var r := s'.Request(s'.cashOutNonce);
            && r.createdAt == now
            && (r.expiresAt == now + ttl <==> now + ttl < TWO_64)
            && (r.expiresAt > r.createdAt <==> now + ttl < TWO_64)
            && r.expiresAt != r.createdAt
  {
  }

  /** A request whose expiry wrapped around is never approved and never executed, in any run. */
  lemma WrappedExpiryIsDead(ss: seq<State>, txs: seq<Tx>, n: nat, id: nat)
    requires IsRun(ss, txs) && n <= |txs|
    requires id in ss[n].cashOutById
    requires ss[n].cashOutById[id].expiresAt < ss[n].cashOutById[id].createdAt
    ensures ss[n].Approvers(id) == {}
    ensures !ss[n].cashOutById[id].executed
  {
    RunKeepsInv(ss, txs, n);
    assert RequestInv(ss[n], id);
    if ss[n].Approvers(id) != {} {
      var a :| a in ss[n].Approvers(id);
      var j := ApprovalEvidence(ss, txs, n, id, a);
    }
  }

  // ---- The member counter and the role it is meant to count ---------------------------------

  /** A call that takes BOARD_ROLE away without touching boardMemberCount. */
  predicate DirectRemoval(c: Call) {
    (c.CallRevokeRole? || c.CallRenounceRole?) && c.role == BoardRole
  }

  function RemovedAccount(tx: Tx): Address {
    if tx.call.CallRevokeRole? then tx.call.account else tx.caller
  }

  lemma SetBoardMemberCounts(s: State, caller: Address, member: Address, allowed: bool)
    requires SetBoardMember(s, caller, member, allowed).Ok?
    requires s.boardMemberCount <= |s.roles.board|
    ensures var s' := SetBoardMember(s, caller, member, allowed).value.state;
            s'.boardMemberCount <= |s'.roles.board|
  {
  }

  /** From a state whose counter does not exceed the holders, one step makes it exceed them exactly
      when it is a committed direct removal of a current holder and the two were equal. */
  lemma CounterOvertakesHoldersExactlyWhen(s: State, tx: Tx)
    requires Inv(s) && ValidCall(tx.call)
    requires s.boardMemberCount <= |s.roles.board|
    ensures Next(s, tx).boardMemberCount > |Next(s, tx).roles.board|
            <==> && DirectRemoval(tx.call)
                 && Execute(s, tx).Ok?
                 && RemovedAccount(tx) in s.roles.board
                 && s.boardMemberCount == |s.roles.board|
  {
    hide Inv, SetBoardMember, ProposeCashOut, ApproveCashOut, ExecuteCashOut, CancelCashOut, SetAdmin;
    if Execute(s, tx).Ok? {
      match tx.call
      case CallSetBoardMember(member, allowed) => SetBoardMemberCounts(s, tx.caller, member, allowed);
      case CallGrantRole(role, account) => SubsetCardinality(s.roles.board, s.roles.Grant(role, account).board);
      case CallRevokeRole(role, account) => WithdrawalCounts(s.roles, role, account);
      case CallRenounceRole(role, _) => WithdrawalCounts(s.roles, role, tx.caller);
      case _ => OtherCallsKeepTheBoard(s, tx);
    }
  }

  lemma OtherCallsKeepTheBoard(s: State, tx: Tx)
    requires ValidCall(tx.call)
    requires !tx.call.CallSetBoardMember? && !tx.call.CallGrantRole? && !tx.call.CallRevokeRole?
    requires !tx.call.CallRenounceRole?
    ensures Next(s, tx).roles.board == s.roles.board && Next(s, tx).boardMemberCount == s.boardMemberCount
  {
  }

  lemma WithdrawalCounts(roles: Roles, role: Role, account: Address)
    ensures |roles.Withdraw(role, account).board|
            == if role == BoardRole && account in roles.board then |roles.board| - 1 else |roles.board|
  {
  }

  /** While nobody revokes or renounces BOARD_ROLE directly, there are at least as many board members as
      the counter says, so the threshold can be met by the holders of the role. */
  lemma {:induction false} CounterBelowHolders(ss: seq<State>, txs: seq<Tx>, n: nat)
    requires IsRun(ss, txs) && n <= |txs|
    requires forall i :: 0 <= i < n ==> !DirectRemoval(txs[i].call)
    ensures ss[n].cashOutThreshold <= ss[n].boardMemberCount <= |ss[n].roles.board|
  {
    RunKeepsInv(ss, txs, n);
    if n == 0 {
      BornInv(ss[0]);
    } else {
      CounterBelowHolders(ss, txs, n - 1);
      RunKeepsInv(ss, txs, n - 1);
      CounterOvertakesHoldersExactlyWhen(ss[n - 1], txs[n - 1]);
    }
  }

  /** A call that changes BOARD_ROLE only through setBoardMember, removing only current members. */
  predicate Disciplined(s: State, c: Call) {
    && (c.CallGrantRole? || c.CallRevokeRole? || c.CallRenounceRole? ==> c.role != BoardRole)
    && (c.CallSetBoardMember? && !c.allowed ==> c.member in s.roles.board)
  }

  lemma DisciplinedSetBoardMember(s: State, caller: Address, member: Address, allowed: bool)
    requires SetBoardMember(s, caller, member, allowed).Ok?
    requires allowed || member in s.roles.board
    requires s.boardMemberCount == |s.roles.board|
    ensures var s' := SetBoardMember(s, caller, member, allowed).value.state;
            s'.boardMemberCount == |s'.roles.board|
  {
  }

  lemma DisciplinedStep(s: State, tx: Tx)
    requires ValidCall(tx.call) && Disciplined(s, tx.call)
    requires s.boardMemberCount == |s.roles.board|
    ensures Next(s, tx).boardMemberCount == |Next(s, tx).roles.board|
  {
    if Execute(s, tx).Ok? {
      match tx.call
      case CallSetBoardMember(member, allowed) => DisciplinedSetBoardMember(s, tx.caller, member, allowed);
      case _ => assert Next(s, tx).roles.board == s.roles.board;
    }
  }

  /** Under that discipline the counter is exactly the number of holders. */
  lemma {:induction false} CounterEqualsHolders(ss: seq<State>, txs: seq<Tx>, n: nat)
    requires IsRun(ss, txs) && n <= |txs|
    requires forall i :: 0 <= i < n ==> Disciplined(ss[i], txs[i].call)
    ensures ss[n].boardMemberCount == |ss[n].roles.board|
  {
    hide Execute;
    if n == 0 {
      BornInv(ss[0]);
    } else {
      CounterEqualsHolders(ss, txs, n - 1);
      DisciplinedStep(ss[n - 1], txs[n - 1]);
    }
  }

  /** Removing someone who is not a member lowers the counter all the same. */
  lemma RemovingAStrangerLowersTheCounter(s: State, caller: Address, stranger: Address)
    requires Inv(s) && caller in s.roles.admin
    requires stranger != Zero && stranger !in s.roles.board && s.cashOutThreshold < s.boardMemberCount
    ensures var r := SetBoardMember(s, caller, stranger, false);
            && r.Ok?
            && r.value.state.roles.board == s.roles.board
            && r.value.state.boardMemberCount == s.boardMemberCount - 1
  {
  }

  // ---- The threshold can always be reached --------------------------------------------------

  ghost predicate Open(s: State, id: nat) {
    && id in s.cashOutById
    && s.status == Verified
    && !s.cashOutById[id].executed
    && !s.cashOutById[id].canceled
  }

  /** `voters[i]` approves at `times[i]`, one after the other; Revert as soon as one call reverts. */
  function ApproveAll(s: State, id: nat, voters: seq<Address>, times: seq<Timestamp>): Result<State>
    requires |voters| == |times|
    decreases |voters|
  {
    if voters == [] then Ok(s)
    else
      match ApproveCashOut(s, voters[0], times[0], id)
      case Revert(e) => Revert(e)
      case Ok(effect) => ApproveAll(effect.state, id, voters[1..], times[1..])
  }

  lemma ApprovalCommits(s: State, caller: Address, now: Timestamp, id: nat)
    requires Inv(s) && Open(s, id)
    requires caller in s.roles.board && caller !in s.Approvers(id)
    requires now <= s.Request(id).expiresAt
    requires |s.Approvers(id) + {caller}| <= MAX_UINT32
    ensures var r := ApproveCashOut(s, caller, now, id);
            && r.Ok?
            && var s' := r.value.state;
            && Inv(s') && Open(s', id)
            && s'.Approvers(id) == s.Approvers(id) + {caller}
            && s'.roles == s.roles
            && s'.cashOutThreshold == s.cashOutThreshold
            && s'.Request(id).expiresAt == s.Request(id).expiresAt
  {
    assert RequestInv(s, id);
    ApproveKeepsInv(s, caller, now, id);
  }

  lemma FirstVoter(voters: seq<Address>, approvers: set<Address>, board: set<Address>)
    requires voters != [] && NoDuplicates(voters)
    requires ToSet(voters) <= board - approvers
    ensures voters[0] in board && voters[0] !in approvers
    ensures NoDuplicates(voters[1..])
    ensures ToSet(voters[1..]) <= board - (approvers + {voters[0]})
    ensures approvers + ToSet(voters) == approvers + {voters[0]} + ToSet(voters[1..])
    ensures |approvers + {voters[0]}| <= |approvers + ToSet(voters)|
  {
    hide ToSet;
    HeadAndTail(voters);
    SubsetCardinality(approvers + {voters[0]}, approvers + ToSet(voters));
  }

  lemma HeadAndTail(s: seq<Address>)
    requires s != []
    ensures ToSet(s) == {s[0]} + ToSet(s[1..]) && (NoDuplicates(s) ==> s[0] !in ToSet(s[1..]))
  {
    assert s == [s[0]] + s[1..];
  }

  lemma {:induction false} ApproveAllCollects(s: State, id: nat, voters: seq<Address>, times: seq<Timestamp>)
    requires Inv(s) && Open(s, id)
    requires |voters| == |times| && NoDuplicates(voters)
    requires ToSet(voters) <= s.roles.board - s.Approvers(id)
    requires forall i :: 0 <= i < |times| ==> times[i] <= s.Request(id).expiresAt
    requires |s.Approvers(id) + ToSet(voters)| <= MAX_UINT32
    ensures var r := ApproveAll(s, id, voters, times);
            && r.Ok? && Inv(r.value) && Open(r.value, id)
            && r.value.Approvers(id) == s.Approvers(id) + ToSet(voters)
            && r.value.roles == s.roles
            && r.value.cashOutThreshold == s.cashOutThreshold
            && r.value.Request(id).expiresAt == s.Request(id).expiresAt
    decreases |voters|
  {
    hide Inv, Open, ApproveCashOut, State.Request, State.Approvers, ToSet, NoDuplicates;
    if voters == [] {
      assert ToSet(voters) == {} by { NothingIn(voters); }
    } else {
      FirstVoter(voters, s.Approvers(id), s.roles.board);
      ApprovalCommits(s, voters[0], times[0], id);
      var s' := ApproveCashOut(s, voters[0], times[0], id).value.state;
      ApproveAllCollects(s', id, voters[1..], times[1..]);
    }
  }

  lemma NothingIn(s: seq<Address>)
    requires s == []
    ensures ToSet(s) == {}
  {
  }

  /** Whoever the remaining approvers are and in whatever order they vote: as soon as approvers and voters together
      are as many as the threshold, every vote commits and an admin's execution pays. */
  lemma EnoughApproversPay(s: State, id: nat, voters: seq<Address>, times: seq<Timestamp>, admin: Address,
                           now: Timestamp)
    requires Inv(s) && Open(s, id)
    requires |voters| == |times| && NoDuplicates(voters)
    requires ToSet(voters) <= s.roles.board - s.Approvers(id)
    requires forall i :: 0 <= i < |times| ==> times[i] <= s.Request(id).expiresAt
    requires now <= s.Request(id).expiresAt
    requires s.cashOutThreshold <= |s.Approvers(id) + ToSet(voters)| <= MAX_UINT32
    requires admin in s.roles.admin
    ensures var r := ApproveAll(s, id, voters, times);
            && r.Ok?
            && r.value.Approvers(id) == s.Approvers(id) + ToSet(voters)
            && r.value.Request(id).approvals == |s.Approvers(id) + ToSet(voters)|
            && ExecuteCashOut(r.value, admin, now, id, true).Ok?
            && ExecuteCashOut(r.value, admin, now, id, true).value.state.Request(id).executed
  {
    ApproveAllCollects(s, id, voters, times);
    assert RequestInv(ApproveAll(s, id, voters, times).value, id);
  }

  /** In any state reached without direct removals, whatever order the board members who have not yet
      approved vote in, every vote commits, the tally ends at |approvers + board|, and an admin can
      then execute the request. */
  lemma ThresholdIsReachable(ss: seq<State>, txs: seq<Tx>, n: nat, id: nat,
                             voters: seq<Address>, times: seq<Timestamp>, admin: Address, now: Timestamp)
    requires IsRun(ss, txs) && n <= |txs|
    requires forall i :: 0 <= i < n ==> !DirectRemoval(txs[i].call)
    requires Open(ss[n], id)
    requires |voters| == |times| && NoDuplicates(voters)
    requires ToSet(voters) == ss[n].roles.board - ss[n].Approvers(id)
    requires forall i :: 0 <= i < |times| ==> times[i] <= ss[n].Request(id).expiresAt
    requires now <= ss[n].Request(id).expiresAt
    requires |ss[n].Approvers(id) + ss[n].roles.board| <= MAX_UINT32
    requires admin in ss[n].roles.admin
    ensures var r := ApproveAll(ss[n], id, voters, times);
            && r.Ok?
            && r.value.Approvers(id) == ss[n].Approvers(id) + ss[n].roles.board
            && r.value.Request(id).approvals == |ss[n].Approvers(id) + ss[n].roles.board|
            && r.value.cashOutThreshold <= r.value.Request(id).approvals
            && ExecuteCashOut(r.value, admin, now, id, true).Ok?
  {
    var s := ss[n];
    RunKeepsInv(ss, txs, n);
    CounterBelowHolders(ss, txs, n);
    assert s.Approvers(id) + ToSet(voters) == s.Approvers(id) + s.roles.board;
    SubsetCardinality(s.roles.board, s.Approvers(id) + s.roles.board);
    EnoughApproversPay(s, id, voters, times, admin, now);
  }

  /** A direct revokeRole breaks this: a board of one, revoked by the admin, leaves a threshold of one
      and nobody to meet it. */
  lemma DirectRevocationStrandsTheThreshold(id: MasjidId, admin: Address, coin: Address, member: Address,
                                            now: Timestamp)
    requires admin != Zero && coin != Zero && member != Zero
    ensures var born := Construct(Protocol, id, admin, coin, [member], 1, now);
            && born.Ok?
            && var r := RevokeRole(born.value.state, admin, BoardRole, member);
            && r.Ok?
            && r.value.state.roles.board == {}
            && r.value.state.boardMemberCount == 1 == r.value.state.cashOutThreshold
  {
    BoardAccepted([member]);
    var s := Construct(Protocol, id, admin, coin, [member], 1, now).value.state;
    assert s.roles.board == {member} by { assert [member][0] == member; }
    assert s.roles.board - {member} == {};
  }
}
