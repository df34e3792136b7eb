/** The logs and the storage: every log of a committed transaction says what that transaction changed, and what no
    indexer table keeps is told all the same. */
module Chronicle {
  import opened Types
  import opened World
  import opened WorldSafety
  import G = Governance
  import S = Stewardship
  import R = Refinement
  import H = Histories
  import B = Boards
  import I = Instance
  import Safety = InstanceSafety

  // ---- One instance -------------------------------------------------------------------------

  /** The log is true of a call by `caller` at `now` that took the instance from `was` (nothing, for a new one) to
      `s`. */
  ghost predicate TrueOfInstance(was: Option<I.State>, caller: Address, now: nat, s: I.State, e: I.Event) {
    match e
    case BoardMemberUpdated(member, allowed) =>
      && (member in s.roles.board <==> allowed)
      && (was.Some? && allowed ==> member !in was.value.roles.board)
    case CashOutThresholdUpdated(previous, t) =>
      previous == (if was.Some? then was.value.cashOutThreshold else 0) && t == s.cashOutThreshold
    case CashedIn(from, amount, _) => was == Some(s) && from == caller && amount > 0
    case CashOutProposed(n, proposer, to, amount, noteHash, expiresAt) =>
      && was.Some? && n !in was.value.cashOutById && n in s.cashOutById && proposer == caller
      && s.cashOutById[n] == I.CashOut(to, amount, noteHash, proposer, now, expiresAt, 0, false, false)
    case CashOutApproved(n, v, approvals) =>
      && was.Some? && v == caller && v !in was.value.Approvers(n) && v in s.Approvers(n)
      && approvals == |s.Approvers(n)|
    case CashOutExecuted(n, executor) =>
      was.Some? && executor == caller && !was.value.Request(n).executed && s.Request(n).executed
    case CashOutCanceled(n, canceler) =>
      was.Some? && canceler == caller && !was.value.Request(n).canceled && s.Request(n).canceled
    case AdminUpdated(previous, admin) => was.Some? && previous == was.value.masjidAdmin && admin == s.masjidAdmin
    case StatusUpdated(previous, status, at) =>
      previous == (if was.Some? then was.value.status else I.Unverified) && status == s.status && at == now
  }

  lemma GovernanceIsTrue(s: I.State, tx: I.Tx)
    requires I.ValidCall(tx.call) && Safety.Governance(tx.call) && I.Execute(s, tx).Ok?
    ensures var r := I.Execute(s, tx).value;
            forall e :: e in r.logs ==> TrueOfInstance(Some(s), tx.caller, tx.now, r.state, e)
  {
    hide I.ProposeCashOut, I.ApproveCashOut, I.ExecuteCashOut, I.CancelCashOut;
  }

  lemma ProposalIsTrue(s: I.State, tx: I.Tx)
    requires Safety.Inv(s) && I.ValidCall(tx.call) && tx.call.CallPropose? && I.Execute(s, tx).Ok?
    ensures var r := I.Execute(s, tx).value;
            forall e :: e in r.logs ==> TrueOfInstance(Some(s), tx.caller, tx.now, r.state, e)
  {
    hide I.ApproveCashOut, I.ExecuteCashOut, I.CancelCashOut, I.SetBoardMember;
  }

  lemma ApprovalIsTrue(s: I.State, tx: I.Tx)
    requires Safety.Inv(s) && tx.call.CallApprove? && I.Execute(s, tx).Ok?
    ensures var r := I.Execute(s, tx).value;
            forall e :: e in r.logs ==> TrueOfInstance(Some(s), tx.caller, tx.now, r.state, e)
  {
    hide I.ProposeCashOut, I.ExecuteCashOut, I.CancelCashOut, I.SetBoardMember;
    Safety.ApproveKeepsInv(s, tx.caller, tx.now, tx.call.id);
    assert Safety.RequestInv(I.Execute(s, tx).value.state, tx.call.id);
  }

  lemma SettlementIsTrue(s: I.State, tx: I.Tx)
    requires (tx.call.CallExecute? || tx.call.CallCancel?) && I.Execute(s, tx).Ok?
    ensures var r := I.Execute(s, tx).value;
            forall e :: e in r.logs ==> TrueOfInstance(Some(s), tx.caller, tx.now, r.state, e)
  {
    hide I.ProposeCashOut, I.ApproveCashOut, I.SetBoardMember;
  }

  lemma CallIsTrue(s: I.State, tx: I.Tx)
    requires Safety.Inv(s) && I.ValidCall(tx.call) && I.Execute(s, tx).Ok?
    ensures var r := I.Execute(s, tx).value;
            forall e :: e in r.logs ==> TrueOfInstance(Some(s), tx.caller, tx.now, r.state, e)
  {
    hide I.Execute, TrueOfInstance, Safety.Inv;
    match tx.call
    case CallPropose(_, _, _, _) => ProposalIsTrue(s, tx);
    case CallApprove(_) => ApprovalIsTrue(s, tx);
    case CallExecute(_, _) => SettlementIsTrue(s, tx);
    case CallCancel(_) => SettlementIsTrue(s, tx);
    case _ => GovernanceIsTrue(s, tx);
  }

  /** What governance changes, it tells, unless a role was granted or taken directly. */
  ghost predicate ToldByInstance(s: I.State, tx: I.Tx, s': I.State, logs: seq<I.Event>) {
    && (s'.cashOutThreshold != s.cashOutThreshold
        ==> I.CashOutThresholdUpdated(s.cashOutThreshold, s'.cashOutThreshold) in logs)
    && (s'.masjidAdmin != s.masjidAdmin ==> I.AdminUpdated(s.masjidAdmin, s'.masjidAdmin) in logs)
    && (s'.status != s.status ==> I.StatusUpdated(s.status, s'.status, tx.now) in logs)
    && (!Safety.DirectRemoval(tx.call) && !tx.call.CallGrantRole? ==>
          forall v :: (v in s'.roles.board <==> v in s.roles.board)
                      || I.BoardMemberUpdated(v, v in s'.roles.board) in logs)
  }

  lemma CallTellsAll(s: I.State, tx: I.Tx)
    requires I.ValidCall(tx.call) && I.Execute(s, tx).Ok?
    ensures var r := I.Execute(s, tx).value; ToldByInstance(s, tx, r.state, r.logs)
  {
    if !Safety.Governance(tx.call) {
      hide I.SetBoardMember;
    } else {
      hide I.ProposeCashOut, I.ApproveCashOut, I.ExecuteCashOut, I.CancelCashOut;
    }
  }

  // ---- The whole system ---------------------------------------------------------------------

  function Before(w: State, a: Address): Option<I.State> {
    if a in w.instances then Some(w.instances[a]) else None
  }

  /** The log is true of a transaction that took the system from `w` to `w'`. */
  ghost predicate TrueOf(w: State, tx: Tx, w': State, e: Event) {
    match e
    case AuthorityTransferred(previous, authority) =>
      previous == w.registry.authority == tx.caller && authority == w'.registry.authority
    case VerifierAdded(v) => v in w'.registry.verifiers - w.registry.verifiers
    case VerifierRemoved(v) => v in w.registry.verifiers - w'.registry.verifiers
    case MasjidRegistered(id, nameHash, proposer, name, uri, coin, board) =>
      && id !in w.masjidById && id in w'.masjidById && proposer == tx.caller
      && var m := w'.Get(id);
      && (m.nameHash, m.proposer, m.masjidName, m.metadataUri, m.stablecoin) == (nameHash, proposer, name, uri, coin)
      && w'.Board(id) == board && nameHash in w'.masjidIdByNameHash && w'.masjidIdByNameHash[nameHash] == id
    case MasjidAttested(id, v, support, yes, no) =>
      && v == tx.caller && v in w'.HasAttested(id) - w.HasAttested(id)
      && (yes, no) == (w'.Get(id).attestYes, w'.Get(id).attestNo)
      && yes == w.Get(id).attestYes + (if support then 1 else 0)
      && no == w.Get(id).attestNo + (if support then 0 else 1)
    case MasjidVerified(id, a, attesters, yes, no) =>
      && w.Get(id).status == Pending && w'.Get(id).status == Verified && w'.Get(id).instance == a
      && attesters == w'.Attesters(id) && (yes, no) == (w'.Get(id).attestYes, w'.Get(id).attestNo)
    case MasjidRejected(id, attesters, yes, no) =>
      && w.Get(id).status == Pending && w'.Get(id).status == Rejected
      && attesters == w'.Attesters(id) && (yes, no) == (w'.Get(id).attestYes, w'.Get(id).attestNo)
    case MasjidAdminTransferred(id, previous, admin) =>
      previous == w.Get(id).masjidAdmin == tx.caller && admin == w'.Get(id).masjidAdmin
    case MasjidStatusUpdated(id, previous, status) =>
      previous == w.Get(id).status != status == w'.Get(id).status
    case MasjidDeployed(id, a) => w.FactoryEntry(id) == Zero && w'.FactoryEntry(id) == a && a in w'.instances
    case InstanceLog(a, e) =>
      && a in w'.instances && TrueOfInstance(Before(w, a), tx.caller, tx.now, w'.instances[a], e)
      && (e.CashedIn? ==> tx.call == CallInstance(a, I.CallCashIn(e.amount, e.noteHash, true)))
  }

  ghost predicate AllTrue(w: State, tx: Tx, w': State, logs: seq<Event>) {
    forall e :: e in logs ==> TrueOf(w, tx, w', e)
  }

  lemma RegistryIsTrue(w: State, tx: Tx)
    requires ValidTx(tx) && S.OnRegistry(tx.call) && Execute(w, tx).Ok?
    ensures AllTrue(w, tx, Next(w, tx), Logs(w, tx))
  {
    hide Register, Attest, TransferAdmin, SetStatus, I.Execute, TrueOfInstance;
  }

  lemma RegisterIsTrue(w: State, tx: Tx)
    requires Inv(w) && ValidTx(tx) && tx.call.CallRegister? && Execute(w, tx).Ok?
    ensures AllTrue(w, tx, Next(w, tx), Logs(w, tx))
  {
    hide RegistryInv, MasjidInv, NamesInv, DeploymentsInv, Blank, TrueOfInstance;
    RegisterIsFresh(w, tx.caller, tx.call.masjidName);
  }

  lemma TransferAdminIsTrue(w: State, tx: Tx)
    requires Inv(w) && ValidTx(tx) && tx.call.CallTransferAdmin? && Execute(w, tx).Ok?
    ensures AllTrue(w, tx, Next(w, tx), Logs(w, tx))
  {
    hide Inv;
  }

  lemma SetStatusIsTrue(w: State, tx: Tx, id: MasjidId, status: Status, mirrored: I.Verification)
    requires SetStatus(w, tx.now, id, status, mirrored).Ok? && w.Get(id).status != status
    ensures var r := SetStatus(w, tx.now, id, status, mirrored).value; AllTrue(w, tx, r.state, r.logs)
  {
  }

  lemma OnlyCashInsSaySo(s: I.State, tx: I.Tx)
    requires I.ValidCall(tx.call) && I.Execute(s, tx).Ok?
    ensures forall e :: e in I.Execute(s, tx).value.logs && e.CashedIn? ==>
                          tx.call == I.CallCashIn(e.amount, e.noteHash, true)
  {
  }

  lemma InstanceCallIsTrue(w: State, tx: Tx)
    requires Inv(w) && ValidTx(tx) && tx.call.CallInstance? && Execute(w, tx).Ok?
    ensures AllTrue(w, tx, Next(w, tx), Logs(w, tx))
  {
    hide Inv, I.Execute, TrueOfInstance;
    H.DeployedInvOf(w, tx.call.instance);
    CallIsTrue(w.instances[tx.call.instance], B.CallMade(tx));
    OnlyCashInsSaySo(w.instances[tx.call.instance], B.CallMade(tx));
  }

  lemma VerifyLogsShape(w: State, now: Timestamp, id: MasjidId)
    requires var m := w.Get(id);
             && |m.masjidName| > 0 && m.proposer != Zero && m.stablecoin != Zero && w.FactoryEntry(id) == Zero
    requires Verify(w, now, id).Ok?
    ensures var m, a := w.Get(id), Deployed(w.deployments);
            var born := I.Construct(Protocol, id, m.proposer, m.stablecoin, w.Board(id), m.cashOutThreshold, now);
            && born.Ok? && I.SetStatus(born.value.state, Protocol, now, I.Verified).Ok?
            && Verify(w, now, id).value.logs
               == InstanceLogs(a, born.value.logs) + [MasjidDeployed(id, a)]
                  + InstanceLogs(a, I.SetStatus(born.value.state, Protocol, now, I.Verified).value.logs)
                  + [MasjidVerified(id, a, w.Attesters(id), m.attestYes, m.attestNo)]
  {
    hide I.SetStatus, I.Construct;
  }

  lemma BirthIsTrue(caller: Address, now: Timestamp, id: MasjidId, admin: Address, coin: Address, board: seq<Address>,
                    threshold: nat, e: I.Event)
    requires I.Construct(Protocol, id, admin, coin, board, threshold, now).Ok?
    ensures var born := I.Construct(Protocol, id, admin, coin, board, threshold, now).value;
            var verified := I.SetStatus(born.state, Protocol, now, I.Verified);
            verified.Ok? && (e in born.logs + verified.value.logs ==>
                               !e.CashedIn? && TrueOfInstance(None, caller, now, verified.value.state, e))
  {
    hide I.BoardDefect;
  }

  lemma VerificationIsTrue(w: State, tx: Tx, w1: State, id: MasjidId)
    requires Inv(w1) && id in w1.masjidById && w1.Get(id).status == Pending && Verify(w1, tx.now, id).Ok?
    requires w.Get(id).status == Pending && w.factory == w1.factory && w.instances == w1.instances
    ensures var r := Verify(w1, tx.now, id).value; AllTrue(w, tx, r.state, r.logs)
  {
    hide Inv, Verify, I.Construct, I.SetStatus, TrueOfInstance;
    var r, m, a := Verify(w1, tx.now, id).value, w1.Get(id), Deployed(w1.deployments);
    R.VerifiedTerms(w1, id);
    VerifyShape(w1, tx.now, id);
    VerifyLogsShape(w1, tx.now, id);
    forall e | e in r.logs ensures TrueOf(w, tx, r.state, e) {
      if e.InstanceLog? {
        BirthIsTrue(tx.caller, tx.now, id, m.proposer, m.stablecoin, w1.Board(id), m.cashOutThreshold, e.event);
      }
    }
  }

  lemma AttestIsTrue(w: State, tx: Tx)
    requires Inv(w) && ValidTx(tx) && tx.call.CallAttest? && Execute(w, tx).Ok?
    ensures AllTrue(w, tx, Next(w, tx), Logs(w, tx))
  {
    hide Inv, Verify, RecordVote, TrueOf, Register, TransferAdmin, SetStatus, I.Execute, AddVerifier, RemoveVerifier;
    var id, support, w' := tx.call.id, tx.call.support, Next(w, tx);
    var w1 := RecordVote(w, tx.caller, tx.now, id, support);
    G.AttestedIsRegistered(w, tx.caller, tx.now, id, support);
    G.CallerIsNotZero(w, tx.caller);
    RecordVoteFacts(w, tx.caller, tx.now, id, support);
    RecordVoteKeepsInv(w, tx.caller, tx.now, id, support);
    VoteKeepsFactory(w, tx.caller, tx.now, id, support);
    if w1.Get(id).attestYes >= w.registry.Quorum() {
      G.VerifyEffect(w1, tx.now, id);
      VerificationIsTrue(w, tx, w1, id);
    } else if w1.Get(id).attestNo >= w.registry.Quorum() {
      RejectionIsTrue(w, tx, w', id);
    }
    VoteIsTrue(w, tx, w');
  }

  lemma VoteIsTrue(w: State, tx: Tx, w': State)
    requires tx.call.CallAttest? && tx.caller !in w.HasAttested(tx.call.id)
    requires w'.HasAttested(tx.call.id) == w.HasAttested(tx.call.id) + {tx.caller}
    requires var m, m' := w.Get(tx.call.id), w'.Get(tx.call.id);
             && m'.attestYes == m.attestYes + (if tx.call.support then 1 else 0)
             && m'.attestNo == m.attestNo + (if tx.call.support then 0 else 1)
    ensures var id, support, m' := tx.call.id, tx.call.support, w'.Get(tx.call.id);
            TrueOf(w, tx, w', MasjidAttested(id, tx.caller, support, m'.attestYes, m'.attestNo))
  {
  }

  lemma RejectionIsTrue(w: State, tx: Tx, w': State, id: MasjidId)
    requires w.Get(id).status == Pending && w'.Get(id).status == Rejected
    ensures TrueOf(w, tx, w', MasjidRejected(id, w'.Attesters(id), w'.Get(id).attestYes, w'.Get(id).attestNo))
  {
  }

  lemma VoteKeepsFactory(w: State, caller: Address, now: Timestamp, id: MasjidId, support: bool)
    ensures RecordVote(w, caller, now, id, support).factory == w.factory
  {
  }

  /** Every log of a committed transaction is true: whoever it names did it, and every value it carries is what the
      storage held before or holds now. */
  lemma LogsAreTrue(w: State, tx: Tx)
    requires Inv(w) && ValidTx(tx)
    ensures AllTrue(w, tx, Next(w, tx), Logs(w, tx))
  {
    hide Inv, TrueOf, Attest, TransferAdmin, SetStatus, Register, AddVerifier, RemoveVerifier, TransferAuthority,
         I.Execute;
    if Execute(w, tx).Ok? {
      match tx.call
      case CallTransferAuthority(_) => RegistryIsTrue(w, tx);
      case CallAddVerifier(_) => RegistryIsTrue(w, tx);
      case CallRemoveVerifier(_) => RegistryIsTrue(w, tx);
      case CallRegister(_, _, _, _) => RegisterIsTrue(w, tx);
      case CallAttest(_, _) => AttestIsTrue(w, tx);
      case CallTransferAdmin(_, _) => TransferAdminIsTrue(w, tx);
      case CallFlag(id) => SetStatusIsTrue(w, tx, id, Flagged, I.Flagged);
      case CallUnflag(id) => SetStatusIsTrue(w, tx, id, Verified, I.Verified);
      case CallRevoke(id) => SetStatusIsTrue(w, tx, id, Revoked, I.Revoked);
      case CallInstance(_, _) => InstanceCallIsTrue(w, tx);
    }
  }

  /** Who the authority, the verifiers and a masjid's admin are does not change untold. */
  lemma StewardsAreTold(w: State, tx: Tx, v: Address, id: MasjidId)
    requires Inv(w) && ValidTx(tx) && w.registry.verifierCount < MAX_UINT256 && id in w.masjidById
    ensures var r, r', logs := w.registry, Next(w, tx).registry, Logs(w, tx);
            && (r'.authority != r.authority ==> AuthorityTransferred(r.authority, r'.authority) in logs)
            && (v in r'.verifiers - r.verifiers ==> VerifierAdded(v) in logs)
            && (v in r.verifiers - r'.verifiers ==> VerifierRemoved(v) in logs)
    ensures var m, m' := w.Get(id), Next(w, tx).Get(id);
            m'.masjidAdmin != m.masjidAdmin ==> MasjidAdminTransferred(id, m.masjidAdmin, m'.masjidAdmin) in Logs(w, tx)
  {
    hide Inv, Execute, Next, Logs, MAX_UINT256;
    S.AuthorityFollows(w, tx);
    S.VerifiersFollow(w, tx, v);
    S.MasjidAdminFollows(w, tx, id);
    if S.OnRegistry(tx.call) { RegistryTells(w, tx); }
    if tx.call.CallTransferAdmin? && tx.call.id == id { HandoverTells(w, tx); }
  }

  lemma RegistryTells(w: State, tx: Tx)
    requires ValidTx(tx) && S.OnRegistry(tx.call)
    ensures if Execute(w, tx).Revert? then Next(w, tx) == w else
            Logs(w, tx) == match tx.call
                           case CallTransferAuthority(a) => [AuthorityTransferred(w.registry.authority, a)]
                           case CallAddVerifier(v) => [VerifierAdded(v)]
                           case CallRemoveVerifier(v) => [VerifierRemoved(v)]
  {
  }

  lemma HandoverTells(w: State, tx: Tx)
    requires ValidTx(tx) && tx.call.CallTransferAdmin?
    ensures if Execute(w, tx).Revert? then Next(w, tx) == w else
            MasjidAdminTransferred(tx.call.id, w.Get(tx.call.id).masjidAdmin, tx.call.newAdmin) in Logs(w, tx)
  {
    hide I.SetAdmin;
  }

  /** Nor does the board or the threshold of a deployed instance, unless a role is granted or taken directly. */
  lemma InstancesAreTold(w: State, tx: Tx, a: Address, v: Address)
    requires Inv(w) && ValidTx(tx) && a in w.instances && a in Next(w, tx).instances
    requires tx.call.CallInstance? ==> !Safety.DirectRemoval(tx.call.call) && !tx.call.call.CallGrantRole?
    ensures var s, s', logs := w.instances[a], Next(w, tx).instances[a], Logs(w, tx);
            && (s'.cashOutThreshold != s.cashOutThreshold ==>
                  InstanceLog(a, I.CashOutThresholdUpdated(s.cashOutThreshold, s'.cashOutThreshold)) in logs)
            && ((v in s'.roles.board <==> v in s.roles.board)
                || InstanceLog(a, I.BoardMemberUpdated(v, v in s'.roles.board)) in logs)
  {
    hide Inv, Execute, Next, Logs, ToldByInstance, Safety.DirectRemoval;
    B.GovernedByCalls(w, tx, a);
    if B.IsCallTo(tx, a) { CallTold(w, tx, a, v); }
  }

  lemma CallTold(w: State, tx: Tx, a: Address, v: Address)
    requires ValidTx(tx) && B.IsCallTo(tx, a) && a in w.instances
    requires !Safety.DirectRemoval(tx.call.call) && !tx.call.call.CallGrantRole?
    ensures var s, s', logs := w.instances[a], I.Next(w.instances[a], B.CallMade(tx)), Logs(w, tx);
            && (s'.cashOutThreshold != s.cashOutThreshold ==>
                  InstanceLog(a, I.CashOutThresholdUpdated(s.cashOutThreshold, s'.cashOutThreshold)) in logs)
            && ((v in s'.roles.board <==> v in s.roles.board)
                || InstanceLog(a, I.BoardMemberUpdated(v, v in s'.roles.board)) in logs)
  {
    hide I.Execute;
    var r := I.Execute(w.instances[a], B.CallMade(tx));
    if r.Ok? {
      CallTellsAll(w.instances[a], B.CallMade(tx));
      forall e | e in r.value.logs ensures InstanceLog(a, e) in Logs(w, tx) {
        var i :| 0 <= i < |r.value.logs| && r.value.logs[i] == e;
        assert Logs(w, tx)[i] == InstanceLog(a, e);
      }
    }
  }
}
