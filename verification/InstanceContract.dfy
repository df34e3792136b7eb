/** MasjidInstance in place: storage fields that each call reads and writes step by step. A revert after a
    write puts the fields back, as the EVM does, and every method is proved against the specification. */
module InstanceContract {
  import opened Types
  import opened Instance
  import opened TokenContract
  import T = Treasury

  /** A call returns its logs or its error. */
  type Answer = Result<seq<Event>>

  class MasjidInstance {
    const self: Address
    const masjidId: MasjidId
    const stablecoin: Address
    const createdAt: nat

    var masjidAdmin: Address
    var status: Verification
    var verifiedAt: nat
    var roles: Roles
    var boardMemberCount: nat
    var cashOutThreshold: nat
    var cashOutNonce: nat
    var cashOutById: map<nat, CashOut>
    var hasApprovedCashOut: map<nat, set<Address>>

    ghost function View(): State
      reads this
    {
      State(masjidId, stablecoin, createdAt, masjidAdmin, status, verifiedAt, roles,
            boardMemberCount, cashOutThreshold, cashOutNonce, cashOutById, hasApprovedCashOut)
    }

    /** The storage before the board loop of the constructor. */
    constructor (self: Address, protocol: Address, masjidId: MasjidId, masjidAdmin: Address, stablecoin: Address,
                 now: Timestamp)
      ensures this.self == self
      ensures View() == State(masjidId, stablecoin, now, masjidAdmin, Unverified, 0,
                              Roles({protocol}, {masjidAdmin}, {}, {}),
                              0, 0, 0, map[], map[])
    {
      this.self, this.masjidId, this.masjidAdmin := self, masjidId, masjidAdmin;
      this.stablecoin, this.createdAt := stablecoin, now;
      status, verifiedAt := Unverified, 0;
      roles := Roles({protocol}, {masjidAdmin}, {}, {});
      boardMemberCount, cashOutThreshold, cashOutNonce := 0, 0, 0;
      cashOutById, hasApprovedCashOut := map[], map[];
    }

    /** The whole constructor: a board entry that is zero or already a member reverts the creation. */
    static method Create(self: Address, protocol: Address, masjidId: MasjidId, masjidAdmin: Address,
                         stablecoin: Address,
                         board: seq<Address>, threshold: nat, now: Timestamp)
      returns (created: Result<MasjidInstance>, logs: seq<Event>)
      ensures var spec := Construct(protocol, masjidId, masjidAdmin, stablecoin, board, threshold, now);
              match created
              case Ok(c) => fresh(c) && c.self == self && spec == Ok(Effect(c.View(), logs))
              case Revert(e) => spec == Revert(e) && logs == []
    {
      if protocol == Zero || masjidAdmin == Zero || stablecoin == Zero { return Revert(ZeroAddress), []; }
      if threshold == 0 { return Revert(InvalidThreshold), []; }
      if |board| < threshold { return Revert(InvalidThreshold), []; }
      var c := new MasjidInstance(self, protocol, masjidId, masjidAdmin, stablecoin, now);
      logs := [];
      for i := 0 to |board|
        invariant fresh(c) && c.self == self
        invariant c.View() == State(masjidId, stablecoin, now, masjidAdmin, Unverified, 0,
                                    Roles({protocol}, {masjidAdmin}, set k | 0 <= k < i :: board[k], {}),
                                    i, 0, 0, map[], map[])
        invariant logs == BoardLogs(board[..i])
        invariant BoardDefect(board, 0) == BoardDefect(board, i)
      {
        var member := board[i];
        if member == Zero { return Revert(ZeroAddress), []; }
        if member in c.roles.board {
          assert board[i] in board[..i];
          return Revert(DuplicateVerifier), [];
        }
        c.roles := c.roles.Grant(BoardRole, member);
        c.boardMemberCount := c.boardMemberCount + 1;
        logs := logs + [BoardMemberUpdated(member, true)];
        assert board[..i + 1] == board[..i] + [member];
      }
      assert board[..|board|] == board;
      c.cashOutThreshold := threshold;
      logs := logs + [CashOutThresholdUpdated(0, threshold)];
      created := Ok(c);
    }

    /** `token` is the contract at the stablecoin address. */
    method CashIn(token: MockERC20, caller: Address, amount: nat, noteHash: nat) returns (answer: Answer)
      modifies token
      ensures var moved := T.TransferFrom(old(token.Ledger()), self, caller, self, amount);
              && Did(answer, View(), View(), Instance.CashIn(View(), caller, amount, noteHash, moved.Ok?))
              && token.Ledger() == if answer.Ok? then moved.value else old(token.Ledger())
    {
      if amount == 0 { return Revert(AmountZero); }
      var paid := token.TransferFrom(self, caller, self, amount);
      if !paid { return Revert(TransferFailed); }
      answer := Ok([CashedIn(caller, amount, noteHash)]);
    }

    method ProposeCashOut(caller: Address, now: Timestamp, to: Address, amount: nat, noteHash: nat,
                          expiresInSeconds: nat)
      returns (answer: Answer)
      requires expiresInSeconds < TWO_64
      modifies this
      ensures Did(answer, old(View()), View(),
                  Instance.ProposeCashOut(old(View()), caller, now, to, amount, noteHash, expiresInSeconds))
    {
      if caller !in roles.board { return Revert(AccessControlUnauthorized); }
      if status != Verified { return Revert(InvalidStatus); }
      if to == Zero { return Revert(ZeroAddress); }
      if amount == 0 { return Revert(AmountZero); }
      if expiresInSeconds == 0 { return Revert(InvalidExpiry); }
      if cashOutNonce >= MAX_UINT256 { return Revert(Panic); }
      var requestId := cashOutNonce + 1;
      cashOutNonce := requestId;
      var expiresAt := (now + expiresInSeconds) % TWO_64;
      cashOutById := cashOutById[requestId := CashOut(to, amount, noteHash, caller, now, expiresAt, 0, false, false)];
      answer := Ok([CashOutProposed(requestId, caller, to, amount, noteHash, expiresAt)]);
    }

    method ApproveCashOut(caller: Address, now: Timestamp, requestId: nat) returns (answer: Answer)
      modifies this
      ensures Did(answer, old(View()), View(), Instance.ApproveCashOut(old(View()), caller, now, requestId))
    {
      if caller !in roles.board { return Revert(AccessControlUnauthorized); }
      if status != Verified { return Revert(InvalidStatus); }
      var request := Request(requestId);
      var approvers := if requestId in hasApprovedCashOut then hasApprovedCashOut[requestId] else {};
      if request.createdAt == 0 { return Revert(CashOutNotFound); }
      if request.canceled { return Revert(CashOutIsCanceled); }
      if request.executed { return Revert(CashOutAlreadyExecuted); }
      if now > request.expiresAt { return Revert(CashOutExpired); }
      if caller in approvers { return Revert(CashOutAlreadyApproved); }
      var saved := hasApprovedCashOut;
      hasApprovedCashOut := hasApprovedCashOut[requestId := approvers + {caller}];
      if request.approvals >= MAX_UINT32 {
        hasApprovedCashOut := saved;
        return Revert(Panic);
      }
      request := request.(approvals := request.approvals + 1);
      cashOutById := cashOutById[requestId := request];
      answer := Ok([CashOutApproved(requestId, caller, request.approvals)]);
    }

    function Request(requestId: nat): (request: CashOut)
      reads this
      ensures request == View().Request(requestId)
    {
      if requestId in cashOutById then cashOutById[requestId] else NO_REQUEST
    }

    /** The request is marked before the token is called; a failed payment takes the mark back. */
    method ExecuteCashOut(token: MockERC20, caller: Address, now: Timestamp, requestId: nat) returns (answer: Answer)
      modifies this, token
      ensures var request := old(Request(requestId));
              var moved := T.Transfer(old(token.Ledger()), self, request.to, request.amount);
              && Did(answer, old(View()), View(),
                     Instance.ExecuteCashOut(old(View()), caller, now, requestId, moved.Ok?))
              && token.Ledger() == if answer.Ok? then moved.value else old(token.Ledger())
    {
      if caller !in roles.admin { return Revert(AccessControlUnauthorized); }
      if status != Verified { return Revert(InvalidStatus); }
      var request := Request(requestId);
      if request.createdAt == 0 { return Revert(CashOutNotFound); }
      if request.canceled { return Revert(CashOutIsCanceled); }
      if request.executed { return Revert(CashOutAlreadyExecuted); }
      if now > request.expiresAt { return Revert(CashOutExpired); }
      if request.approvals < cashOutThreshold { return Revert(CashOutThresholdNotReached); }
      var saved := cashOutById;
      cashOutById := cashOutById[requestId := request.(executed := true)];
      var paid := token.Transfer(self, request.to, request.amount);
      if !paid {
        cashOutById := saved;
        return Revert(TransferFailed);
      }
      answer := Ok([CashOutExecuted(requestId, caller)]);
    }

    method CancelCashOut(caller: Address, requestId: nat) returns (answer: Answer)
      modifies this
      ensures Did(answer, old(View()), View(), Instance.CancelCashOut(old(View()), caller, requestId))
    {
      if caller !in roles.admin { return Revert(AccessControlUnauthorized); }
      var request := Request(requestId);
      if request.createdAt == 0 { return Revert(CashOutNotFound); }
      if request.executed { return Revert(CashOutAlreadyExecuted); }
      if request.canceled { return Revert(CashOutIsCanceled); }
      cashOutById := cashOutById[requestId := request.(canceled := true)];
      answer := Ok([CashOutCanceled(requestId, caller)]);
    }

    /** A removal writes the role and the counter before it compares the counter with the threshold. */
    method SetBoardMember(caller: Address, member: Address, allowed: bool) returns (answer: Answer)
      modifies this
      ensures Did(answer, old(View()), View(), Instance.SetBoardMember(old(View()), caller, member, allowed))
    {
      if caller !in roles.admin { return Revert(AccessControlUnauthorized); }
      if member == Zero { return Revert(ZeroAddress); }
      var saved := roles;
      if allowed {
        if member in roles.board { return Revert(DuplicateVerifier); }
        roles := roles.Grant(BoardRole, member);
        if boardMemberCount >= MAX_UINT256 {
          roles := saved;
          return Revert(Panic);
        }
        boardMemberCount := boardMemberCount + 1;
      } else {
        roles := roles.Withdraw(BoardRole, member);
        if boardMemberCount == 0 {
          roles := saved;
          return Revert(Panic);
        }
        boardMemberCount := boardMemberCount - 1;
        if cashOutThreshold > boardMemberCount {
          roles, boardMemberCount := saved, boardMemberCount + 1;
          return Revert(InvalidThreshold);
        }
      }
      answer := Ok([BoardMemberUpdated(member, allowed)]);
    }

    method SetCashOutThreshold(caller: Address, newThreshold: nat) returns (answer: Answer)
      modifies this
      ensures Did(answer, old(View()), View(), Instance.SetCashOutThreshold(old(View()), caller, newThreshold))
    {
      if caller !in roles.admin { return Revert(AccessControlUnauthorized); }
      if newThreshold == 0 { return Revert(InvalidThreshold); }
      if newThreshold > boardMemberCount { return Revert(InvalidThreshold); }
      var previous := cashOutThreshold;
      cashOutThreshold := newThreshold;
      answer := Ok([CashOutThresholdUpdated(previous, newThreshold)]);
    }

    method SetAdmin(caller: Address, newAdmin: Address) returns (answer: Answer)
      modifies this
      ensures Did(answer, old(View()), View(), Instance.SetAdmin(old(View()), caller, newAdmin))
    {
      if caller !in roles.protocol { return Revert(AccessControlUnauthorized); }
      if newAdmin == Zero { return Revert(ZeroAddress); }
      var previous := masjidAdmin;
      roles := roles.Withdraw(AdminRole, previous);
      roles := roles.Grant(AdminRole, newAdmin);
      masjidAdmin := newAdmin;
      answer := Ok([AdminUpdated(previous, newAdmin)]);
    }

    method SetStatus(caller: Address, now: Timestamp, newStatus: Verification) returns (answer: Answer)
      modifies this
      ensures Did(answer, old(View()), View(), Instance.SetStatus(old(View()), caller, now, newStatus))
    {
      if caller !in roles.protocol { return Revert(AccessControlUnauthorized); }
      var previous := status;
      status := newStatus;
      if newStatus == Verified && verifiedAt == 0 { verifiedAt := now; }
      answer := Ok([StatusUpdated(previous, newStatus, now)]);
    }

    method GrantRole(caller: Address, role: Role, account: Address) returns (answer: Answer)
      modifies this
      ensures Did(answer, old(View()), View(), Instance.GrantRole(old(View()), caller, role, account))
    {
      if caller !in roles.Holders(RoleAdmin(role)) { return Revert(AccessControlUnauthorized); }
      roles := roles.Grant(role, account);
      answer := Ok([]);
    }

    method RevokeRole(caller: Address, role: Role, account: Address) returns (answer: Answer)
      modifies this
      ensures Did(answer, old(View()), View(), Instance.RevokeRole(old(View()), caller, role, account))
    {
      if caller !in roles.Holders(RoleAdmin(role)) { return Revert(AccessControlUnauthorized); }
      roles := roles.Withdraw(role, account);
      answer := Ok([]);
    }

    method RenounceRole(caller: Address, role: Role, confirmation: Address) returns (answer: Answer)
      modifies this
      ensures Did(answer, old(View()), View(), Instance.RenounceRole(old(View()), caller, role, confirmation))
    {
      if confirmation != caller { return Revert(AccessControlBadConfirmation); }
      roles := roles.Withdraw(role, caller);
      answer := Ok([]);
    }
  }
}
