/** MasjidInstance: the per-mosque treasury, as a function of its storage.
    Every operation checks its guards in the contract's order and either commits or reverts. */
module Instance {
  import opened Types

  datatype Verification = Unverified | Verified | Flagged | Revoked

  datatype Role = ProtocolRole | AdminRole | BoardRole | DefaultAdminRole

  /** AccessControl: the holders of each role. Granting and revoking are idempotent. */
  datatype Roles = Roles(protocol: set<Address>, admin: set<Address>, board: set<Address>, root: set<Address>) {
    function Holders(r: Role): set<Address> {
      match r
      case ProtocolRole => protocol
      case AdminRole => admin
      case BoardRole => board
      case DefaultAdminRole => root
    }

    function With(r: Role, holders: set<Address>): Roles {
      match r
      case ProtocolRole => this.(protocol := holders)
      case AdminRole => this.(admin := holders)
      case BoardRole => this.(board := holders)
      case DefaultAdminRole => this.(root := holders)
    }

    function Grant(r: Role, account: Address): Roles { With(r, Holders(r) + {account}) }

    function Withdraw(r: Role, account: Address): Roles { With(r, Holders(r) - {account}) }
  }

  function RoleAdmin(r: Role): Role {
    match r
    case ProtocolRole => ProtocolRole
    case AdminRole => ProtocolRole
    case BoardRole => AdminRole
    case DefaultAdminRole => DefaultAdminRole
  }

  datatype CashOut = CashOut(
    to: Address, amount: nat, noteHash: nat, proposer: Address,
    createdAt: nat, expiresAt: nat, approvals: nat, executed: bool, canceled: bool)

  /** What an unwritten slot of `cashOutById` reads as. */
  const NO_REQUEST := CashOut(Zero, 0, 0, Zero, 0, 0, 0, false, false)

  datatype State = State(
    id: MasjidId, stablecoin: Address, createdAt: nat,
    masjidAdmin: Address, status: Verification, verifiedAt: nat, roles: Roles,
    boardMemberCount: nat, cashOutThreshold: nat, cashOutNonce: nat,
    cashOutById: map<nat, CashOut>, approvers: map<nat, set<Address>>)
  {
    function Request(id: nat): CashOut { if id in cashOutById then cashOutById[id] else NO_REQUEST }

    function Approvers(id: nat): set<Address> { if id in approvers then approvers[id] else {} }
  }

  datatype Event =
    | BoardMemberUpdated(member: Address, allowed: bool)
    | CashOutThresholdUpdated(previousThreshold: nat, newThreshold: nat)
    | CashedIn(from: Address, amount: nat, noteHash: nat)
    | CashOutProposed(requestId: nat, proposer: Address, to: Address, amount: nat, noteHash: nat, expiresAt: nat)
    | CashOutApproved(requestId: nat, approver: Address, approvals: nat)
    | CashOutExecuted(requestId: nat, executor: Address)
    | CashOutCanceled(requestId: nat, canceledBy: Address)
    | AdminUpdated(previousAdmin: Address, newAdmin: Address)
    | StatusUpdated(previousStatus: Verification, newStatus: Verification, updatedAt: nat)

  type Outcome = Result<Effect<State, Event>>

  // ---- Construction -------------------------------------------------------------------------

  ghost predicate WellFormedBoard(board: seq<Address>) {
    Zero !in board && NoDuplicates(board)
  }

  /** The error of the first board entry, from `i` on, that the constructor loop refuses. */
  function BoardDefect(board: seq<Address>, i: nat): (r: Option<Error>)
    requires i <= |board|
    decreases |board| - i
  {
    if i == |board| then None
    else if board[i] == Zero then Some(ZeroAddress)
    else if board[i] in board[..i] then Some(DuplicateVerifier)
    else BoardDefect(board, i + 1)
  }

  lemma {:induction false} BoardDefectFrom(board: seq<Address>, i: nat)
    requires i <= |board|
    requires WellFormedBoard(board[..i])
    ensures BoardDefect(board, i) == None <==> WellFormedBoard(board)
    decreases |board| - i
  {
    if i == |board| {
      assert board[..i] == board;
    } else if board[i] != Zero && board[i] !in board[..i] {
      assert board[..i + 1] == board[..i] + [board[i]];
      BoardDefectFrom(board, i + 1);
    } else if board[i] in board[..i] {
      var j :| 0 <= j < i && board[j] == board[i];
    }
  }

  /** The constructor loop accepts exactly the boards without zero addresses and repetitions. */
  lemma BoardAccepted(board: seq<Address>)
    ensures BoardDefect(board, 0) == None <==> WellFormedBoard(board)
  {
    BoardDefectFrom(board, 0);
  }

  function BoardLogs(board: seq<Address>): seq<Event> {
    seq(|board|, i requires 0 <= i < |board| => BoardMemberUpdated(board[i], true))
  }

  function Construct(protocol: Address, id: MasjidId, masjidAdmin: Address, stablecoin: Address,
                     board: seq<Address>, threshold: nat, now: Timestamp): Outcome {
    if protocol == Zero || masjidAdmin == Zero || stablecoin == Zero then Revert(ZeroAddress)
    else if threshold == 0 then Revert(InvalidThreshold)
    else if |board| < threshold then Revert(InvalidThreshold)
    else if BoardDefect(board, 0).Some? then Revert(BoardDefect(board, 0).value)
    else
      var roles := Roles({protocol}, {masjidAdmin}, set i | 0 <= i < |board| :: board[i], {});
      Ok(Effect(
        State(id, stablecoin, now, masjidAdmin, Unverified, 0, roles, |board|, threshold, 0, map[], map[]),
        BoardLogs(board) + [CashOutThresholdUpdated(0, threshold)]))
  }

  // ---- Cash in and cash out -----------------------------------------------------------------

  /** `paid` is what the stablecoin's transferFrom reported: false for a false result or a revert. */
  function CashIn(s: State, caller: Address, amount: nat, noteHash: nat, paid: bool): Outcome {
    if amount == 0 then Revert(AmountZero)
    else if !paid then Revert(TransferFailed)
    else Ok(Effect(s, [CashedIn(caller, amount, noteHash)]))
  }

  function ProposeCashOut(s: State, caller: Address, now: Timestamp,
                          to: Address, amount: nat, noteHash: nat, expiresInSeconds: nat): Outcome
    requires expiresInSeconds < TWO_64
  {
    if caller !in s.roles.board then Revert(AccessControlUnauthorized)
    else if s.status != Verified then Revert(InvalidStatus)
    else if to == Zero then Revert(ZeroAddress)
    else if amount == 0 then Revert(AmountZero)
    else if expiresInSeconds == 0 then Revert(InvalidExpiry)
    else if s.cashOutNonce >= MAX_UINT256 then Revert(Panic)
    else
      var id := s.cashOutNonce + 1;
      var expiresAt := (now + expiresInSeconds) % TWO_64;
      var request := CashOut(to, amount, noteHash, caller, now, expiresAt, 0, false, false);
      Ok(Effect(s.(cashOutNonce := id, cashOutById := s.cashOutById[id := request]),
                [CashOutProposed(id, caller, to, amount, noteHash, expiresAt)]))
  }

  function ApproveCashOut(s: State, caller: Address, now: Timestamp, id: nat): Outcome {
    var request := s.Request(id);
    if caller !in s.roles.board then Revert(AccessControlUnauthorized)
    else if s.status != Verified then Revert(InvalidStatus)
    else if request.createdAt == 0 then Revert(CashOutNotFound)
    else if request.canceled then Revert(CashOutIsCanceled)
    else if request.executed then Revert(CashOutAlreadyExecuted)
    else if now > request.expiresAt then Revert(CashOutExpired)
    else if caller in s.Approvers(id) then Revert(CashOutAlreadyApproved)
    else if request.approvals >= MAX_UINT32 then Revert(Panic)
    else
      var approvals := request.approvals + 1;
      Ok(Effect(s.(cashOutById := s.cashOutById[id := request.(approvals := approvals)],
                   approvers := s.approvers[id := s.Approvers(id) + {caller}]),
                [CashOutApproved(id, caller, approvals)]))
  }

  /** The checks of executeCashOut and the `executed` write that precedes the token call. */
  function BeginExecution(s: State, caller: Address, now: Timestamp, id: nat): Result<State> {
    var request := s.Request(id);
    if caller !in s.roles.admin then Revert(AccessControlUnauthorized)
    else if s.status != Verified then Revert(InvalidStatus)
    else if request.createdAt == 0 then Revert(CashOutNotFound)
    else if request.canceled then Revert(CashOutIsCanceled)
    else if request.executed then Revert(CashOutAlreadyExecuted)
    else if now > request.expiresAt then Revert(CashOutExpired)
    else if request.approvals < s.cashOutThreshold then Revert(CashOutThresholdNotReached)
    else Ok(s.(cashOutById := s.cashOutById[id := request.(executed := true)]))
  }

  function ExecuteCashOut(s: State, caller: Address, now: Timestamp, id: nat, paid: bool): Outcome {
    match BeginExecution(s, caller, now, id)
    case Revert(e) => Revert(e)
    case Ok(s') => if paid then Ok(Effect(s', [CashOutExecuted(id, caller)])) else Revert(TransferFailed)
  }

  function CancelCashOut(s: State, caller: Address, id: nat): Outcome {
    var request := s.Request(id);
    if caller !in s.roles.admin then Revert(AccessControlUnauthorized)
    else if request.createdAt == 0 then Revert(CashOutNotFound)
    else if request.executed then Revert(CashOutAlreadyExecuted)
    else if request.canceled then Revert(CashOutIsCanceled)
    else Ok(Effect(s.(cashOutById := s.cashOutById[id := request.(canceled := true)]),
                   [CashOutCanceled(id, caller)]))
  }

  // ---- Governance ---------------------------------------------------------------------------

  function SetBoardMember(s: State, caller: Address, member: Address, allowed: bool): Outcome {
    if caller !in s.roles.admin then Revert(AccessControlUnauthorized)
    else if member == Zero then Revert(ZeroAddress)
    else if allowed then
      if member in s.roles.board then Revert(DuplicateVerifier)
      else if s.boardMemberCount >= MAX_UINT256 then Revert(Panic)
      else Ok(Effect(s.(roles := s.roles.Grant(BoardRole, member), boardMemberCount := s.boardMemberCount + 1),
                     [BoardMemberUpdated(member, true)]))
    else if s.boardMemberCount == 0 then Revert(Panic)
    else if s.cashOutThreshold > s.boardMemberCount - 1 then Revert(InvalidThreshold)
    else Ok(Effect(s.(roles := s.roles.Withdraw(BoardRole, member), boardMemberCount := s.boardMemberCount - 1),
                   [BoardMemberUpdated(member, false)]))
  }

  function SetCashOutThreshold(s: State, caller: Address, newThreshold: nat): Outcome {
    if caller !in s.roles.admin then Revert(AccessControlUnauthorized)
    else if newThreshold == 0 || newThreshold > s.boardMemberCount then Revert(InvalidThreshold)
    else Ok(Effect(s.(cashOutThreshold := newThreshold), [CashOutThresholdUpdated(s.cashOutThreshold, newThreshold)]))
  }

  function SetAdmin(s: State, caller: Address, newAdmin: Address): Outcome {
    if caller !in s.roles.protocol then Revert(AccessControlUnauthorized)
    else if newAdmin == Zero then Revert(ZeroAddress)
    else Ok(Effect(s.(roles := s.roles.Withdraw(AdminRole, s.masjidAdmin).Grant(AdminRole, newAdmin),
                      masjidAdmin := newAdmin),
                   [AdminUpdated(s.masjidAdmin, newAdmin)]))
  }

  function SetStatus(s: State, caller: Address, now: Timestamp, newStatus: Verification): Outcome {
    if caller !in s.roles.protocol then Revert(AccessControlUnauthorized)
    else
      var verifiedAt := if newStatus == Verified && s.verifiedAt == 0 then now else s.verifiedAt;
      Ok(Effect(s.(status := newStatus, verifiedAt := verifiedAt), [StatusUpdated(s.status, newStatus, now)]))
  }

  // The three entry points inherited from AccessControl.

  function GrantRole(s: State, caller: Address, role: Role, account: Address): Outcome {
    if caller !in s.roles.Holders(RoleAdmin(role)) then Revert(AccessControlUnauthorized)
    else Ok(Effect(s.(roles := s.roles.Grant(role, account)), []))
  }

  function RevokeRole(s: State, caller: Address, role: Role, account: Address): Outcome {
    if caller !in s.roles.Holders(RoleAdmin(role)) then Revert(AccessControlUnauthorized)
    else Ok(Effect(s.(roles := s.roles.Withdraw(role, account)), []))
  }

  function RenounceRole(s: State, caller: Address, role: Role, confirmation: Address): Outcome {
    if confirmation != caller then Revert(AccessControlBadConfirmation)
    else Ok(Effect(s.(roles := s.roles.Withdraw(role, caller)), []))
  }

  // ---- The instance as a transition system --------------------------------------------------

  datatype Call =
    | CallCashIn(amount: nat, noteHash: nat, paid: bool)
    | CallPropose(to: Address, amount: nat, noteHash: nat, expiresInSeconds: nat)
    | CallApprove(id: nat)
    | CallExecute(id: nat, paid: bool)
    | CallCancel(id: nat)
    | CallSetBoardMember(member: Address, allowed: bool)
    | CallSetCashOutThreshold(newThreshold: nat)
    | CallSetAdmin(newAdmin: Address)
    | CallSetStatus(newStatus: Verification)
    | CallGrantRole(role: Role, account: Address)
    | CallRevokeRole(role: Role, account: Address)
    | CallRenounceRole(role: Role, confirmation: Address)

  /** Calldata the ABI decoder lets through: the lifetime is a uint64. */
  predicate ValidCall(c: Call) { c.CallPropose? ==> c.expiresInSeconds < TWO_64 }

  datatype Tx = Tx(caller: Address, now: Timestamp, call: Call)

  function Execute(s: State, tx: Tx): Outcome
    requires ValidCall(tx.call)
  {
    match tx.call
    case CallCashIn(amount, noteHash, paid) => CashIn(s, tx.caller, amount, noteHash, paid)
    case CallPropose(to, amount, noteHash, ttl) => ProposeCashOut(s, tx.caller, tx.now, to, amount, noteHash, ttl)
    case CallApprove(id) => ApproveCashOut(s, tx.caller, tx.now, id)
    case CallExecute(id, paid) => ExecuteCashOut(s, tx.caller, tx.now, id, paid)
    case CallCancel(id) => CancelCashOut(s, tx.caller, id)
    case CallSetBoardMember(member, allowed) => SetBoardMember(s, tx.caller, member, allowed)
    case CallSetCashOutThreshold(newThreshold) => SetCashOutThreshold(s, tx.caller, newThreshold)
    case CallSetAdmin(newAdmin) => SetAdmin(s, tx.caller, newAdmin)
    case CallSetStatus(newStatus) => SetStatus(s, tx.caller, tx.now, newStatus)
    case CallGrantRole(role, account) => GrantRole(s, tx.caller, role, account)
    case CallRevokeRole(role, account) => RevokeRole(s, tx.caller, role, account)
    case CallRenounceRole(role, confirmation) => RenounceRole(s, tx.caller, role, confirmation)
  }

  /** A revert leaves the whole state unchanged. */
  function Next(s: State, tx: Tx): State
    requires ValidCall(tx.call)
  {
    match Execute(s, tx)
    case Ok(effect) => effect.state
    case Revert(_) => s
  }
}
