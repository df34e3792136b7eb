/** The governance of each deployed instance over runs of the whole system: who sits on its board, who holds its
    admin role and what its threshold is are what the steps before say, and nothing else. */
module Boards {
  import opened Types
  import opened World
  import opened WorldSafety
  import opened InstanceRuns
  import opened Histories
  import G = Governance
  import S = Stewardship
  import I = Instance

  // ---- One call to an instance --------------------------------------------------------------

  /** The call puts `v` on the board: setBoardMember for somebody new, or a direct grant. */
  predicate Admits(s: I.State, tx: I.Tx, v: Address) {
    && tx.caller in s.roles.admin
    && (tx.call == I.CallGrantRole(I.BoardRole, v)
        || (tx.call == I.CallSetBoardMember(v, true) && v != Zero && v !in s.roles.board
            && s.boardMemberCount < MAX_UINT256))
  }

  /** The call takes `v` off the board: setBoardMember while the counter is above the threshold, a direct
      revocation, or the member's own renunciation. */
  predicate Dismisses(s: I.State, tx: I.Tx, v: Address) {
    || (&& tx.call == I.CallSetBoardMember(v, false) && tx.caller in s.roles.admin && v != Zero
        && s.cashOutThreshold < s.boardMemberCount)
    || (tx.call == I.CallRevokeRole(I.BoardRole, v) && tx.caller in s.roles.admin)
    || (tx.call == I.CallRenounceRole(I.BoardRole, v) && tx.caller == v)
  }

  /** An account is on the board after a call exactly when the call put it there, or it was there and the call did not
      take it off. */
  lemma BoardFollows(s: I.State, tx: I.Tx, v: Address)
    requires I.ValidCall(tx.call)
    ensures v in I.Next(s, tx).roles.board <==> Admits(s, tx, v) || (v in s.roles.board && !Dismisses(s, tx, v))
  {
    hide MAX_UINT256, MAX_UINT32;
    if tx.call.CallGrantRole? || tx.call.CallRevokeRole? || tx.call.CallRenounceRole? {
      hide I.ProposeCashOut, I.ApproveCashOut, I.ExecuteCashOut, I.CancelCashOut, I.SetBoardMember;
    } else {
      hide I.GrantRole, I.RevokeRole, I.RenounceRole;
    }
  }

  /** The call sets the threshold to `t`: an admin's, with a value between one and the counter. */
  predicate SetsThreshold(s: I.State, tx: I.Tx, t: nat) {
    tx.call == I.CallSetCashOutThreshold(t) && tx.caller in s.roles.admin && 1 <= t <= s.boardMemberCount
  }

  lemma ThresholdFollows(s: I.State, tx: I.Tx, t: nat)
    requires I.ValidCall(tx.call)
    ensures I.Next(s, tx).cashOutThreshold == t <==>
            SetsThreshold(s, tx, t) || (s.cashOutThreshold == t && forall u :: !SetsThreshold(s, tx, u))
  {
    hide MAX_UINT256, MAX_UINT32, I.Roles.Grant, I.Roles.Withdraw, I.Roles.Holders;
    assert tx.call.CallSetCashOutThreshold? ==>
        (SetsThreshold(s, tx, tx.call.newThreshold) || forall u :: !SetsThreshold(s, tx, u));
  }

  /** The counter moves by one with each committed setBoardMember and with nothing else. */
  lemma CounterFollows(s: I.State, tx: I.Tx)
    requires I.ValidCall(tx.call)
    ensures I.Next(s, tx).boardMemberCount
            == s.boardMemberCount
               + (if tx.call.CallSetBoardMember? && tx.call.allowed && Admits(s, tx, tx.call.member) then 1 else 0)
               - (if tx.call.CallSetBoardMember? && Dismisses(s, tx, tx.call.member) then 1 else 0)
  {
    hide MAX_UINT256, MAX_UINT32, I.Roles.Grant, I.Roles.Withdraw, I.Roles.Holders;
  }

  // ---- One step of the system ---------------------------------------------------------------

  predicate IsCallTo(tx: Tx, a: Address) { tx.call.CallInstance? && tx.call.instance == a }

  function CallMade(tx: Tx): I.Tx
    requires tx.call.CallInstance?
  {
    I.Tx(tx.caller, tx.now, tx.call.call)
  }

  /** Board, threshold and counter of a deployed instance move by the accounts' own calls only. */
  lemma GovernedByCalls(w: State, tx: Tx, a: Address)
    requires Inv(w) && ValidTx(tx) && a in w.instances
    ensures a in Next(w, tx).instances
    ensures var s, s' := w.instances[a], Next(w, tx).instances[a];
            if IsCallTo(tx, a) then s' == I.Next(s, CallMade(tx))
            else (s'.roles.board, s'.cashOutThreshold, s'.boardMemberCount)
                 == (s.roles.board, s.cashOutThreshold, s.boardMemberCount)
  {
    hide Inv, Execute, I.Execute, IsMove;
    InstancePersists(w, tx, a);
    if IsCallTo(tx, a) {
      OwnCallMoves(w, tx, a);
    } else {
      var move := StepMove(w, tx, a);
      NotCreatedAgain(w, tx, Next(w, tx), a, move);
      ProtocolMoveGoverns(w, tx, Next(w, tx), a, move);
    }
  }

  lemma OwnCallMoves(w: State, tx: Tx, a: Address)
    requires ValidTx(tx) && a in w.instances && IsCallTo(tx, a) && a in Next(w, tx).instances
    ensures Next(w, tx).instances[a] == I.Next(w.instances[a], CallMade(tx))
  {
    hide I.Execute;
  }

  lemma ProtocolMoveGoverns(w: State, tx: Tx, w': State, a: Address, move: Move)
    requires IsMove(w, tx, w', a, move) && !move.Created? && !IsCallTo(tx, a) && a in w.instances
    ensures var s, s' := w.instances[a], w'.instances[a];
            (s'.roles.board, s'.cashOutThreshold, s'.boardMemberCount)
            == (s.roles.board, s.cashOutThreshold, s.boardMemberCount)
  {
    hide I.ProposeCashOut, I.ApproveCashOut, I.ExecuteCashOut, I.CancelCashOut, I.SetBoardMember, BornFor;
  }

  /** A new instance starts with the board, the token and the majority threshold its masjid was registered with, its
      proposer as admin, and the time of the vote that verified it. */
  ghost predicate CreatedFor(w: State, tx: Tx, w': State, a: Address) {
    && a !in w.instances && a in w'.instances && tx.call.CallAttest?
    && var s, m, board := w'.instances[a], w.Get(tx.call.id), w.Board(tx.call.id);
    && s.id == tx.call.id && s.stablecoin == m.stablecoin && s.masjidAdmin == m.proposer
    && s.roles == I.Roles({Protocol}, {m.proposer}, ToSet(board), {})
    && s.boardMemberCount == |board| && s.cashOutThreshold == |board| / 2 + 1
    && s.createdAt == s.verifiedAt == tx.now && s.cashOutNonce == 0
  }

  lemma CreationIsForTheMasjid(w: State, tx: Tx, a: Address)
    requires Inv(w) && ValidTx(tx) && a !in w.instances && a in Next(w, tx).instances
    ensures CreatedFor(w, tx, Next(w, tx), a)
  {
    hide Inv, Execute, Next, CallOn;
    var move := StepMove(w, tx, a);
    assert move.Created?;
    VotedIsRegistered(w, tx, a);
    BornTerms(w, tx.call.id, tx.now, move.born);
  }

  lemma VotedIsRegistered(w: State, tx: Tx, a: Address)
    requires Inv(w) && ValidTx(tx) && tx.call.CallAttest? && a !in w.instances && a in Next(w, tx).instances
    ensures w.Get(tx.call.id).cashOutThreshold == |w.Board(tx.call.id)| / 2 + 1
  {
    hide RegistryInv, NamesInv, BlanksInv, DeploymentsInv, VotesInv, MirrorInv, Attest;
    G.AttestedIsRegistered(w, tx.caller, tx.now, tx.call.id, tx.call.support);
    assert MasjidInv(w, tx.call.id);
  }

  lemma BornTerms(w: State, id: MasjidId, now: Timestamp, born: I.State)
    requires BornFor(w, id, now, born)
    ensures var m, board := w.Get(id), w.Board(id);
            && born.id == id && born.stablecoin == m.stablecoin && born.masjidAdmin == m.proposer
            && born.roles == I.Roles({Protocol}, {m.proposer}, ToSet(board), {})
            && born.boardMemberCount == |board| && born.cashOutThreshold == m.cashOutThreshold
            && born.createdAt == now && born.verifiedAt == 0 && born.cashOutNonce == 0 && born.status == I.Unverified
  {
    hide I.BoardDefect, I.BoardLogs;
    var board := w.Board(id);
    assert (set i | 0 <= i < |board| :: board[i]) == ToSet(board);
  }

  // ---- Every run ----------------------------------------------------------------------------

  /** Step `j` created the instance with `v` on its board, or called it to put `v` there. */
  ghost predicate SeatedAt(ws: seq<State>, txs: seq<Tx>, j: nat, a: Address, v: Address)
    requires j < |txs| < |ws|
  {
    if a in ws[j].instances then IsCallTo(txs[j], a) && Admits(ws[j].instances[a], CallMade(txs[j]), v)
    else CreatedFor(ws[j], txs[j], ws[j + 1], a) && v in ws[j].Board(txs[j].call.id)
  }

  ghost predicate UnseatedAt(ws: seq<State>, txs: seq<Tx>, k: nat, a: Address, v: Address)
    requires k < |txs| < |ws|
  {
    a in ws[k].instances && IsCallTo(txs[k], a) && Dismisses(ws[k].instances[a], CallMade(txs[k]), v)
  }

  /** Some step put `v` on the board and none since has taken it off. */
  ghost predicate Seated(ws: seq<State>, txs: seq<Tx>, n: nat, a: Address, v: Address)
    requires n <= |txs| < |ws|
  {
    exists j :: 0 <= j < n && SeatedAt(ws, txs, j, a, v) && forall k :: j < k < n ==> !UnseatedAt(ws, txs, k, a, v)
  }

  lemma SeatedFollows(ws: seq<State>, txs: seq<Tx>, n: nat, a: Address, v: Address)
    requires n < |txs| < |ws|
    ensures Seated(ws, txs, n + 1, a, v)
            <==> SeatedAt(ws, txs, n, a, v) || (Seated(ws, txs, n, a, v) && !UnseatedAt(ws, txs, n, a, v))
  {
    hide SeatedAt, UnseatedAt;
    if Seated(ws, txs, n, a, v) && !UnseatedAt(ws, txs, n, a, v) {
      var j :| 0 <= j < n && SeatedAt(ws, txs, j, a, v) && forall k :: j < k < n ==> !UnseatedAt(ws, txs, k, a, v);
      assert forall k :: j < k < n + 1 ==> !UnseatedAt(ws, txs, k, a, v);
    }
  }

  /** In every run the board of a deployed instance is exactly the accounts that some step seated and no step since
      has unseated. */
  lemma {:induction false} BoardIsTheSeated(ws: seq<State>, txs: seq<Tx>, n: nat, a: Address, v: Address)
    requires IsRun(ws, txs) && n <= |txs|
    ensures a in ws[n].instances && v in ws[n].instances[a].roles.board <==> Seated(ws, txs, n, a, v)
  {
    hide Inv, Execute, Next, Admits, Dismisses, Seated, CreatedFor;
    if n == 0 {
      NoneSeatedYet(ws, txs, a, v);
    } else {
      var w, tx := ws[n - 1], txs[n - 1];
      BoardIsTheSeated(ws, txs, n - 1, a, v);
      SeatedFollows(ws, txs, n - 1, a, v);
      RunKeepsInv(ws, txs, n - 1);
      if a in w.instances {
        GovernedByCalls(w, tx, a);
        if IsCallTo(tx, a) { BoardFollows(w.instances[a], CallMade(tx), v); }
      } else if a in ws[n].instances {
        CreationIsForTheMasjid(w, tx, a);
        CreatedBoard(w, tx, ws[n], a, v);
      } else {
        NotCreatedHere(w, tx, ws[n], a);
      }
    }
  }

  lemma NoneSeatedYet(ws: seq<State>, txs: seq<Tx>, a: Address, v: Address)
    requires IsRun(ws, txs)
    ensures a !in ws[0].instances && !Seated(ws, txs, 0, a, v)
  {
  }

  lemma CreatedBoard(w: State, tx: Tx, w': State, a: Address, v: Address)
    requires CreatedFor(w, tx, w', a)
    ensures v in w'.instances[a].roles.board <==> v in w.Board(tx.call.id)
  {
  }

  lemma NotCreatedHere(w: State, tx: Tx, w': State, a: Address)
    requires a !in w'.instances
    ensures !CreatedFor(w, tx, w', a)
  {
  }

  /** In every run each deployed instance was created by one vote, for the masjid voted on, and its masjid, its token
      and both its times are those of that moment. */
  lemma {:induction false} CreationIsOnRecord(ws: seq<State>, txs: seq<Tx>, n: nat, a: Address) returns (j: nat)
    requires IsRun(ws, txs) && n <= |txs| && a in ws[n].instances
    ensures j < n && CreatedFor(ws[j], txs[j], ws[j + 1], a)
    ensures var s, m := ws[n].instances[a], ws[j].Get(txs[j].call.id);
            && s.id == txs[j].call.id && s.stablecoin == m.stablecoin && s.createdAt == s.verifiedAt == txs[j].now
  {
    hide Inv, Execute, Next;
    if n == 0 {
      assert false;
    } else {
      RunKeepsInv(ws, txs, n - 1);
      if a in ws[n - 1].instances {
        j := CreationIsOnRecord(ws, txs, n - 1, a);
        OriginsStay(ws[n - 1], txs[n - 1], a);
      } else {
        j := n - 1;
        CreationIsForTheMasjid(ws[j], txs[j], a);
      }
    }
  }

  lemma OriginsStay(w: State, tx: Tx, a: Address)
    requires Inv(w) && ValidTx(tx) && a in w.instances && w.instances[a].verifiedAt != 0
    ensures a in Next(w, tx).instances
    ensures var s, s' := w.instances[a], Next(w, tx).instances[a];
            (s'.id, s'.stablecoin, s'.createdAt, s'.verifiedAt) == (s.id, s.stablecoin, s.createdAt, s.verifiedAt)
  {
    hide Inv, Execute, Next, I.Execute, IsMove;
    InstancePersists(w, tx, a);
    var move := StepMove(w, tx, a);
    NotCreatedAgain(w, tx, Next(w, tx), a, move);
    MoveKeepsOrigins(w, tx, Next(w, tx), a, move);
  }

  lemma MoveKeepsOrigins(w: State, tx: Tx, w': State, a: Address, move: Move)
    requires IsMove(w, tx, w', a, move) && !move.Created? && a in w.instances && w.instances[a].verifiedAt != 0
    ensures var s, s' := w.instances[a], w'.instances[a];
            (s'.id, s'.stablecoin, s'.createdAt, s'.verifiedAt) == (s.id, s.stablecoin, s.createdAt, s.verifiedAt)
  {
    hide I.Next, CallOn, BornFor;
    if move.Called? { CallKeepsOrigins(w.instances[a], CallOn(w, tx, a).value); }
  }

  lemma CallKeepsOrigins(s: I.State, tx: I.Tx)
    requires I.ValidCall(tx.call) && s.verifiedAt != 0
    ensures var s' := I.Next(s, tx);
            (s'.id, s'.stablecoin, s'.createdAt, s'.verifiedAt) == (s.id, s.stablecoin, s.createdAt, s.verifiedAt)
  {
    hide MAX_UINT256, MAX_UINT32, I.Roles.Grant, I.Roles.Withdraw, I.Roles.Holders;
  }

  /** Step `j` made `t` the threshold: as the majority of the registered board, or as an admin asked. */
  ghost predicate ThresholdSetAt(ws: seq<State>, txs: seq<Tx>, j: nat, a: Address, t: nat)
    requires j < |txs| < |ws|
  {
    if a in ws[j].instances then IsCallTo(txs[j], a) && SetsThreshold(ws[j].instances[a], CallMade(txs[j]), t)
    else CreatedFor(ws[j], txs[j], ws[j + 1], a) && t == |ws[j].Board(txs[j].call.id)| / 2 + 1
  }

  /** In every run the threshold of a deployed instance is what the last step that set it set it to. */
  lemma {:induction false} ThresholdIsTheLastSet(ws: seq<State>, txs: seq<Tx>, n: nat, a: Address) returns (j: nat)
    requires IsRun(ws, txs) && n <= |txs| && a in ws[n].instances
    ensures j < n && ThresholdSetAt(ws, txs, j, a, ws[n].instances[a].cashOutThreshold)
    ensures forall k, t: nat :: j < k < n ==> !ThresholdSetAt(ws, txs, k, a, t)
  {
    hide Inv, Execute, Next, SetsThreshold, CreatedFor;
    if n == 0 {
      assert false;
    } else {
      var w, tx := ws[n - 1], txs[n - 1];
      RunKeepsInv(ws, txs, n - 1);
      if a in w.instances {
        GovernedByCalls(w, tx, a);
        j := ThresholdIsTheLastSet(ws, txs, n - 1, a);
        if IsCallTo(tx, a) {
          ThresholdFollows(w.instances[a], CallMade(tx), ws[n].instances[a].cashOutThreshold);
          if SetsThreshold(w.instances[a], CallMade(tx), ws[n].instances[a].cashOutThreshold) { j := n - 1; }
        }
      } else {
        j := n - 1;
        CreationIsForTheMasjid(w, tx, a);
        CreatedThreshold(w, tx, ws[n], a);
      }
    }
  }

  lemma CreatedThreshold(w: State, tx: Tx, w': State, a: Address)
    requires CreatedFor(w, tx, w', a)
    ensures w'.instances[a].cashOutThreshold == |w.Board(tx.call.id)| / 2 + 1
  {
  }

  // ---- The admin role -----------------------------------------------------------------------

  /** The transaction hands the masjid of the instance over to somebody. */
  ghost predicate HandsOver(w: State, tx: Tx, a: Address)
    requires a in w.instances
  {
    && tx.call.CallTransferAdmin? && tx.call.id == w.instances[a].id
    && tx.caller == w.Get(tx.call.id).masjidAdmin && tx.call.newAdmin != Zero
  }

  /** ADMIN_ROLE of a deployed instance is held by nobody but the last account it was handed to, until that account
      renounces it. */
  lemma AdminRoleFollows(w: State, tx: Tx, a: Address, x: Address)
    requires Inv(w) && ValidTx(tx) && a in w.instances
    ensures a in Next(w, tx).instances
    ensures x in Next(w, tx).instances[a].roles.admin <==>
            if HandsOver(w, tx, a) then x == tx.call.newAdmin
            else x in w.instances[a].roles.admin
                 && !(tx == Tx(x, tx.now, CallInstance(a, I.CallRenounceRole(I.AdminRole, x))))
  {
    hide Inv, Execute, Next, I.Execute, IsMove, HasInstance;
    InstancePersists(w, tx, a);
    DeployedInvOf(w, a);
    var s := w.instances[a];
    if HandsOver(w, tx, a) {
      DeployedHasInstance(w, a);
      S.HandoverCommitsExactlyWhen(w, tx);
    } else if IsCallTo(tx, a) {
      OwnCallMoves(w, tx, a);
      AdminRoleByCall(s, CallMade(tx), x);
    } else {
      var move := StepMove(w, tx, a);
      NotCreatedAgain(w, tx, Next(w, tx), a, move);
      if tx.call.CallTransferAdmin? && tx.call.id == s.id {
        S.HandoverCommitsExactlyWhen(w, tx);
        S.RevertedStays(w, tx);
      } else {
        OtherMoveKeepsAdmins(w, tx, Next(w, tx), a, move);
      }
    }
  }

  lemma DeployedHasInstance(w: State, a: Address)
    requires Inv(w) && a in w.instances
    ensures HasInstance(w.Get(w.instances[a].id).status) && w.Get(w.instances[a].id).instance == a
  {
    hide RegistryInv, NamesInv, BlanksInv, TermsInv, VotesInv, Safety.Inv, InstanceAgrees;
    assert DeployedInv(w, a);
    assert MasjidInv(w, w.instances[a].id);
  }

  lemma AdminRoleByCall(s: I.State, tx: I.Tx, x: Address)
    requires I.ValidCall(tx.call) && tx.caller.Account? && s.roles.protocol == {Protocol}
    ensures x in I.Next(s, tx).roles.admin
            <==> x in s.roles.admin && !(tx.call == I.CallRenounceRole(I.AdminRole, x) && tx.caller == x)
  {
    if tx.call.CallGrantRole? || tx.call.CallRevokeRole? || tx.call.CallRenounceRole? {
      hide I.ProposeCashOut, I.ApproveCashOut, I.ExecuteCashOut, I.CancelCashOut, I.SetBoardMember;
    } else {
      hide I.GrantRole, I.RevokeRole, I.RenounceRole;
    }
  }

  lemma OtherMoveKeepsAdmins(w: State, tx: Tx, w': State, a: Address, move: Move)
    requires Inv(w) && IsMove(w, tx, w', a, move) && !move.Created? && !IsCallTo(tx, a) && a in w.instances
    requires !(tx.call.CallTransferAdmin? && tx.call.id == w.instances[a].id)
    ensures w'.instances[a].roles == w.instances[a].roles
  {
    hide Inv, I.ProposeCashOut, I.ApproveCashOut, I.ExecuteCashOut, I.CancelCashOut, I.SetBoardMember, BornFor;
    if tx.call.CallTransferAdmin? && w.Get(tx.call.id).instance == a { HandoverElsewhere(w, tx.call.id, a); }
  }

  lemma HandoverElsewhere(w: State, id: MasjidId, a: Address)
    requires Inv(w) && a in w.instances && w.Get(id).instance == a
    ensures w.instances[a].id == id
  {
    hide RegistryInv, NamesInv, BlanksInv, TermsInv, VotesInv, Safety.Inv;
    assert DeployedInv(w, a);
    if id in w.masjidById { assert MasjidInv(w, id); }
  }

  // ---- Calls that commit --------------------------------------------------------------------

  /** In every reachable state a change of the board commits exactly when an admin of the instance asks for it and
      it seats somebody new, or takes one off a counter above the threshold. */
  lemma BoardChangeCommitsExactlyWhen(w: State, tx: Tx, a: Address)
    requires Inv(w) && ValidTx(tx) && IsCallTo(tx, a) && tx.call.call.CallSetBoardMember?
    requires a in w.instances && w.instances[a].boardMemberCount < MAX_UINT256
    ensures var s, c := w.instances[a], tx.call.call;
            Execute(w, tx).Ok? <==>
            && tx.caller in s.roles.admin && c.member != Zero
            && (if c.allowed then c.member !in s.roles.board else s.cashOutThreshold < s.boardMemberCount)
  {
    hide Inv, MAX_UINT256;
  }

  /** Money comes in from anybody at any status, as long as it is some and the token moves it. */
  lemma CashInCommitsExactlyWhen(w: State, tx: Tx, a: Address)
    requires Inv(w) && ValidTx(tx) && IsCallTo(tx, a) && tx.call.call.CallCashIn? && a in w.instances
    ensures Execute(w, tx).Ok? <==> tx.call.call.paid && tx.call.call.amount > 0
    ensures Next(w, tx) == w
    ensures var c := tx.call.call;
            Logs(w, tx) == if Execute(w, tx).Ok? then [InstanceLog(a, I.CashedIn(tx.caller, c.amount, c.noteHash))]
                           else []
  {
    hide Inv;
    assert w.instances[a := w.instances[a]] == w.instances;
  }
}
