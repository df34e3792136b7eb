/** Who may do what to the registry and the protocol, and what it does: for every reachable state and every
    transaction, both when it commits and how each piece of storage follows. */
module Stewardship {
  import opened Types
  import opened World
  import opened WorldSafety
  import opened Governance
  import I = Instance

  // ---- What a committed transaction leaves alone --------------------------------------------

  /** The parts of the storage that votes, handovers and status changes leave alone. */
  ghost predicate SameGround(w: State, w': State) {
    && w'.admin == w.admin && w'.registry == w.registry && w'.masjidNonce == w.masjidNonce
    && w'.masjidIdByNameHash == w.masjidIdByNameHash && w'.boards == w.boards
  }

  lemma TransferAdminShape(w: State, caller: Address, now: Timestamp, id: MasjidId, newAdmin: Address)
    requires TransferAdmin(w, caller, now, id, newAdmin).Ok?
    ensures var m := w.Get(id);
            && m.instance in w.instances && I.SetAdmin(w.instances[m.instance], Protocol, newAdmin).Ok?
            && TransferAdmin(w, caller, now, id, newAdmin).value.state
               == w.WithMasjid(id, m.(masjidAdmin := newAdmin, updatedAt := now))
                   .WithInstance(m.instance, I.SetAdmin(w.instances[m.instance], Protocol, newAdmin).value.state)
  {
    hide I.SetAdmin;
  }

  lemma SetStatusShape(w: State, now: Timestamp, id: MasjidId, status: Status, mirrored: I.Verification)
    requires SetStatus(w, now, id, status, mirrored).Ok?
    ensures var m := w.Get(id);
            && m.instance in w.instances && I.SetStatus(w.instances[m.instance], Protocol, now, mirrored).Ok?
            && SetStatus(w, now, id, status, mirrored).value.state
               == w.WithMasjid(id, m.(status := status, updatedAt := now))
                   .WithInstance(m.instance, I.SetStatus(w.instances[m.instance], Protocol, now, mirrored).value.state)
  {
    hide I.SetStatus;
  }

  lemma AttestGround(w: State, caller: Address, now: Timestamp, id: MasjidId, support: bool)
    requires Inv(w) && Attest(w, caller, now, id, support).Ok?
    ensures SameGround(w, Attest(w, caller, now, id, support).value.state)
  {
    hide Inv, Verify, RecordVote;
    var w1 := RecordVote(w, caller, now, id, support);
    AttestedIsRegistered(w, caller, now, id, support);
    CallerIsNotZero(w, caller);
    RecordVoteGround(w, caller, now, id, support);
    RecordVoteFacts(w, caller, now, id, support);
    RecordVoteKeepsInv(w, caller, now, id, support);
    if w1.Get(id).attestYes >= w.registry.Quorum() { VerifyGround(w1, now, id); }
  }

  lemma RecordVoteGround(w: State, caller: Address, now: Timestamp, id: MasjidId, support: bool)
    ensures SameGround(w, RecordVote(w, caller, now, id, support))
  {
  }

  lemma VerifyGround(w: State, now: Timestamp, id: MasjidId)
    requires Inv(w) && id in w.masjidById && w.Get(id).status == Pending && Verify(w, now, id).Ok?
    ensures SameGround(w, Verify(w, now, id).value.state)
  {
    hide NamesInv, BlanksInv, RegistryInv, DeploymentsInv, Verify, MasjidInv, Safety.Inv;
    VerifyDeploys(w, now, id);
  }

  lemma RegisterGround(w: State, caller: Address, now: Timestamp, name: string, uri: string, coin: Address,
                       board: seq<Address>)
    requires Register(w, caller, now, name, uri, coin, board).Ok?
    ensures var w' := Register(w, caller, now, name, uri, coin, board).value.state;
            w'.admin == w.admin && w'.registry == w.registry
  {
  }

  lemma TransferAdminGround(w: State, caller: Address, now: Timestamp, id: MasjidId, newAdmin: Address)
    requires TransferAdmin(w, caller, now, id, newAdmin).Ok?
    ensures SameGround(w, TransferAdmin(w, caller, now, id, newAdmin).value.state)
  {
    hide I.SetAdmin;
  }

  lemma SetStatusGround(w: State, now: Timestamp, id: MasjidId, status: Status, mirrored: I.Verification)
    requires SetStatus(w, now, id, status, mirrored).Ok?
    ensures SameGround(w, SetStatus(w, now, id, status, mirrored).value.state)
  {
    hide I.SetStatus;
  }

  lemma InstanceCallGround(w: State, tx: Tx)
    requires ValidTx(tx) && tx.call.CallInstance?
    ensures SameGround(w, Next(w, tx))
  {
    hide I.Execute;
  }

  lemma SameGroundMeans(w: State, w': State)
    requires SameGround(w, w')
    ensures w'.admin == w.admin && w'.registry == w.registry
  {
  }

  lemma NothingMoves(w: State)
    ensures SameGround(w, w)
  {
  }

  lemma StepGround(w: State, tx: Tx)
    requires Inv(w) && ValidTx(tx)
    requires !tx.call.CallTransferAuthority? && !tx.call.CallAddVerifier? && !tx.call.CallRemoveVerifier?
    ensures Next(w, tx).admin == w.admin && Next(w, tx).registry == w.registry
    ensures !tx.call.CallRegister? ==> SameGround(w, Next(w, tx))
  {
    hide Inv, Attest, TransferAdmin, SetStatus, Register, I.Execute, SameGround;
    if Execute(w, tx).Ok? {
      match tx.call
      case CallRegister(name, uri, coin, board) => RegisterGround(w, tx.caller, tx.now, name, uri, coin, board);
      case CallAttest(id, support) => AttestGround(w, tx.caller, tx.now, id, support);
      case CallTransferAdmin(id, newAdmin) => TransferAdminGround(w, tx.caller, tx.now, id, newAdmin);
      case CallFlag(id) => SetStatusGround(w, tx.now, id, Flagged, I.Flagged);
      case CallUnflag(id) => SetStatusGround(w, tx.now, id, Verified, I.Verified);
      case CallRevoke(id) => SetStatusGround(w, tx.now, id, Revoked, I.Revoked);
      case _ => InstanceCallGround(w, tx);
    } else {
      NothingMoves(w);
    }
    if SameGround(w, Next(w, tx)) { SameGroundMeans(w, Next(w, tx)); }
  }

  /** The protocol's admin is for ever the account that deployed it. */
  lemma {:induction false} AdminIsForEver(ws: seq<State>, txs: seq<Tx>, n: nat)
    requires IsRun(ws, txs) && n <= |txs|
    ensures ws[n].admin == ws[0].admin
  {
    hide Inv, Execute;
    if n == 0 {
    } else {
      AdminIsForEver(ws, txs, n - 1);
      RunKeepsInv(ws, txs, n - 1);
      AdminStays(ws[n - 1], txs[n - 1]);
    }
  }

  lemma AdminStays(w: State, tx: Tx)
    requires Inv(w) && ValidTx(tx)
    ensures Next(w, tx).admin == w.admin
  {
    hide Inv, Attest, TransferAdmin, SetStatus, Register, I.Execute;
    if !OnRegistry(tx.call) { StepGround(w, tx); }
  }

  // ---- The registry -------------------------------------------------------------------------

  predicate OnRegistry(c: Call) { c.CallTransferAuthority? || c.CallAddVerifier? || c.CallRemoveVerifier? }

  function RegistryAnswer(r: Registry, tx: Tx): Result<Effect<Registry, Event>>
    requires OnRegistry(tx.call)
  {
    match tx.call
    case CallTransferAuthority(newAuthority) => TransferAuthorityOf(r, tx.caller, newAuthority)
    case CallAddVerifier(verifier) => AddVerifierTo(r, tx.caller, verifier)
    case CallRemoveVerifier(verifier) => RemoveVerifierFrom(r, tx.caller, verifier)
  }

  lemma RegistryCall(w: State, tx: Tx)
    requires ValidTx(tx) && OnRegistry(tx.call)
    ensures var answer := RegistryAnswer(w.registry, tx);
            && (Execute(w, tx).Ok? <==> answer.Ok?)
            && Next(w, tx) == w.(registry := if answer.Ok? then answer.value.state else w.registry)
  {
    hide TransferAuthorityOf, AddVerifierTo, RemoveVerifierFrom;
  }

  /** The authority hands itself over, and nobody else does. */
  lemma AuthorityFollows(w: State, tx: Tx)
    requires Inv(w) && ValidTx(tx)
    ensures Next(w, tx).registry.authority
            == if tx.call.CallTransferAuthority? && tx.caller == w.registry.authority && tx.call.newAuthority != Zero
               then tx.call.newAuthority else w.registry.authority
  {
    hide Inv, Execute, Next;
    if OnRegistry(tx.call) { RegistryCall(w, tx); } else { StepGround(w, tx); }
  }

  /** An account is a verifier after a transaction exactly when the authority has just added it, or it was one
      and the authority has not just removed it. */
  lemma VerifiersFollow(w: State, tx: Tx, v: Address)
    requires Inv(w) && ValidTx(tx) && w.registry.verifierCount < MAX_UINT256
    ensures v in Next(w, tx).registry.verifiers <==>
            || (tx.call == CallAddVerifier(v) && tx.caller == w.registry.authority && v != Zero)
            || (v in w.registry.verifiers && !(tx.call == CallRemoveVerifier(v) && tx.caller == w.registry.authority))
  {
    hide MasjidsInv, NamesInv, BlanksInv, DeploymentsInv, Execute, Next, MAX_UINT256;
    if OnRegistry(tx.call) {
      RegistryCall(w, tx);
      if v in w.registry.verifiers { SubsetCardinality({v}, w.registry.verifiers); }
    } else {
      StepGround(w, tx);
    }
  }

  /** What the registry commits: the authority's handover to somebody, its additions of accounts that are not
      verifiers and its removals of accounts that are. */
  lemma RegistryCommitsExactlyWhen(w: State, tx: Tx)
    requires Inv(w) && ValidTx(tx) && OnRegistry(tx.call) && w.registry.verifierCount < MAX_UINT256
    ensures Execute(w, tx).Ok? <==>
            && tx.caller == w.registry.authority
            && match tx.call
               case CallTransferAuthority(newAuthority) => newAuthority != Zero
               case CallAddVerifier(v) => v != Zero && v !in w.registry.verifiers
               case CallRemoveVerifier(v) => v in w.registry.verifiers
  {
    hide MasjidsInv, NamesInv, BlanksInv, DeploymentsInv, Execute, MAX_UINT256;
    RegistryCall(w, tx);
    if tx.call.CallRemoveVerifier? && tx.call.verifier in w.registry.verifiers {
      SubsetCardinality({tx.call.verifier}, w.registry.verifiers);
    }
  }

  // ---- Status changes -----------------------------------------------------------------------

  /** What the admin's call makes of a status, if it is one the call applies to. */
  function Ruling(c: Call, s: Status): Option<Status> {
    match c
    case CallFlag(_) => if s == Verified then Some(Flagged) else None
    case CallUnflag(_) => if s == Flagged then Some(Verified) else None
    case CallRevoke(_) => if s == Verified || s == Flagged then Some(Revoked) else None
    case _ => None
  }

  predicate IsRuling(c: Call) { c.CallFlag? || c.CallUnflag? || c.CallRevoke? }

  /** In every reachable state a flag, unflag or revoke commits exactly when the protocol's admin sends it and the
      masjid's status is one it applies to; both sides then have the new status. */
  lemma RulingCommitsExactlyWhen(w: State, tx: Tx)
    requires Inv(w) && ValidTx(tx) && IsRuling(tx.call)
    ensures Execute(w, tx).Ok? <==> tx.caller == w.admin && Ruling(tx.call, w.Get(tx.call.id).status).Some?
    ensures Execute(w, tx).Ok? ==>
              var m, w' := w.Get(tx.call.id), Next(w, tx);
              && Some(w'.Get(tx.call.id).status) == Ruling(tx.call, m.status)
              && m.instance in w'.instances && w'.instances[m.instance].status == Mirrored(w'.Get(tx.call.id).status)
  {
    hide Inv, Execute, I.SetStatus, Ruling, SetStatus;
    var id := tx.call.id;
    RulingIsSetStatus(w, tx);
    if Ruling(tx.call, w.Get(id).status).Some? {
      var status := Ruling(tx.call, w.Get(id).status).value;
      RulingApplies(tx.call, w.Get(id).status);
      RuledIsDeployed(w, id);
      SetStatusAlways(w.instances[w.Get(id).instance], tx.now, Mirrored(status));
      SetStatusCommits(w, tx.now, id, status, Mirrored(status));
    }
  }

  lemma RulingApplies(c: Call, s: Status)
    requires Ruling(c, s).Some?
    ensures s == Verified || s == Flagged
  {
  }

  /** A ruling is the change of status it rules, or an error. */
  lemma RulingIsSetStatus(w: State, tx: Tx)
    requires ValidTx(tx) && IsRuling(tx.call)
    ensures var id, ruling := tx.call.id, Ruling(tx.call, w.Get(tx.call.id).status);
            if tx.caller == w.admin && w.Get(id).instance != Zero && ruling.Some?
            then Execute(w, tx) == SetStatus(w, tx.now, id, ruling.value, Mirrored(ruling.value))
            else Execute(w, tx).Revert?
  {
    hide SetStatus;
  }

  lemma SetStatusCommits(w: State, now: Timestamp, id: MasjidId, status: Status, mirrored: I.Verification)
    requires w.Get(id).instance in w.instances
    requires I.SetStatus(w.instances[w.Get(id).instance], Protocol, now, mirrored).Ok?
    ensures SetStatus(w, now, id, status, mirrored).Ok?
    ensures var m, w' := w.Get(id), SetStatus(w, now, id, status, mirrored).value.state;
            && w'.Get(id).status == status && m.instance in w'.instances
            && w'.instances[m.instance] == I.SetStatus(w.instances[m.instance], Protocol, now, mirrored).value.state
  {
    hide I.SetStatus;
  }

  lemma RuledIsDeployed(w: State, id: MasjidId)
    requires Inv(w) && (w.Get(id).status == Verified || w.Get(id).status == Flagged)
    ensures id in w.masjidById && w.Get(id).instance != Zero && w.Get(id).instance in w.instances
    ensures Protocol in w.instances[w.Get(id).instance].roles.protocol
  {
    hide RegistryInv, NamesInv, BlanksInv, DeploymentsInv, TermsInv, VotesInv, Safety.Inv;
    assert id in w.masjidById;
    assert MasjidInv(w, id);
  }

  lemma SetStatusAlways(s: I.State, now: Timestamp, status: I.Verification)
    requires Protocol in s.roles.protocol
    ensures I.SetStatus(s, Protocol, now, status).Ok?
    ensures I.SetStatus(s, Protocol, now, status).value.state.status == status
  {
  }

  /** And nothing else changes the status of a deployed masjid: after any transaction it is what a committed
      ruling of the admin made it, or what it was. */
  lemma DeployedStatusFollows(w: State, tx: Tx, id: MasjidId)
    requires Inv(w) && ValidTx(tx) && HasInstance(w.Get(id).status)
    ensures Next(w, tx).Get(id).status
            == if && IsRuling(tx.call) && tx.call.id == id && tx.caller == w.admin
                  && Ruling(tx.call, w.Get(id).status).Some?
               then Ruling(tx.call, w.Get(id).status).value else w.Get(id).status
  {
    hide Inv, Execute, Next, Ruling;
    if IsRuling(tx.call) && tx.call.id == id {
      RulingCommitsExactlyWhen(w, tx);
      if Execute(w, tx).Revert? { RevertedStays(w, tx); }
    } else {
      OtherwiseStatusStays(w, tx, id);
    }
  }

  /** A ruling leaves all but the status and the time of the masjid it names. */
  lemma RulingTouches(w: State, tx: Tx, id: MasjidId)
    requires ValidTx(tx) && IsRuling(tx.call) && Execute(w, tx).Ok?
    ensures var m, m' := w.Get(id), Next(w, tx).Get(id);
            m' == if id == tx.call.id then m.(status := m'.status, updatedAt := tx.now) else m
    ensures id in Next(w, tx).masjidById <==> id in w.masjidById
  {
    hide Execute, SetStatus, Ruling;
    RulingIsOnRegistered(w, tx);
    RulingIsSetStatus(w, tx);
    var status := Ruling(tx.call, w.Get(tx.call.id).status).value;
    SetStatusShape(w, tx.now, tx.call.id, status, Mirrored(status));
  }

  lemma HandoverTouches(w: State, tx: Tx, id: MasjidId)
    requires ValidTx(tx) && tx.call.CallTransferAdmin? && Execute(w, tx).Ok?
    ensures var m, m' := w.Get(id), Next(w, tx).Get(id);
            m' == if id == tx.call.id then m.(masjidAdmin := tx.call.newAdmin, updatedAt := tx.now) else m
  {
    hide TransferAdmin;
    TransferAdminShape(w, tx.caller, tx.now, tx.call.id, tx.call.newAdmin);
  }

  /** Step `j` of a run ruled, in the name of the account that deployed the protocol, that the masjid's status be
      `status`. */
  ghost predicate RuledAt(ws: seq<State>, txs: seq<Tx>, j: nat, id: MasjidId, status: Status)
    requires j < |txs| < |ws|
  {
    && IsRuling(txs[j].call) && txs[j].call.id == id && txs[j].caller == ws[0].admin
    && Ruling(txs[j].call, ws[j].Get(id).status) == Some(status) == Some(ws[j + 1].Get(id).status)
  }

  /** Over any stretch of any run the status of a deployed masjid at the end is the one at the start, or what the last
      of the deployer's rulings made it. */
  lemma {:induction false} StatusIsTheLastRuling(ws: seq<State>, txs: seq<Tx>, m: nat, n: nat, id: MasjidId)
      returns (j: nat)
    requires IsRun(ws, txs) && m <= n <= |txs| && HasInstance(ws[m].Get(id).status)
    ensures HasInstance(ws[n].Get(id).status)
    ensures ws[n].Get(id).status != ws[m].Get(id).status ==>
              m <= j < n && RuledAt(ws, txs, j, id, ws[n].Get(id).status)
  {
    hide Inv, Execute, Next;
    j := m;
    if m == n {
    } else {
      j := StatusIsTheLastRuling(ws, txs, m, n - 1, id);
      RunKeepsInv(ws, txs, n - 1);
      AdminIsForEver(ws, txs, n - 1);
      DeployedStatusFollows(ws[n - 1], txs[n - 1], id);
      if ws[n].Get(id).status != ws[n - 1].Get(id).status { j := n - 1; }
    }
  }

  lemma RevertedStays(w: State, tx: Tx)
    requires ValidTx(tx) && Execute(w, tx).Revert?
    ensures Next(w, tx) == w
  {
    hide Execute;
  }

  lemma OtherwiseStatusStays(w: State, tx: Tx, id: MasjidId)
    requires Inv(w) && ValidTx(tx) && HasInstance(w.Get(id).status) && !(IsRuling(tx.call) && tx.call.id == id)
    ensures Next(w, tx).Get(id).status == w.Get(id).status
  {
    hide Inv, Attest, TransferAdmin, SetStatus, Register, I.Execute;
    if Execute(w, tx).Ok? {
      match tx.call
      case CallRegister(name, uri, coin, board) => NewIdIsNew(w, tx.caller, name, id); RegisterOthers(w, tx, id);
      case CallAttest(k, support) =>
        AttestedIsRegistered(w, tx.caller, tx.now, k, support);
        AttestLeavesOthers(w, tx.caller, tx.now, k, support, id);
      case CallTransferAdmin(_, _) => HandoverTouches(w, tx, id);
      case CallFlag(_) => RulingTouches(w, tx, id);
      case CallUnflag(_) => RulingTouches(w, tx, id);
      case CallRevoke(_) => RulingTouches(w, tx, id);
      case _ => ElsewhereCall(w, tx);
    }
  }

  lemma NewIdIsNew(w: State, caller: Address, name: string, id: MasjidId)
    requires Inv(w) && w.Get(id).status != NoStatus
    ensures id != IdHash(w.masjidNonce + 1, caller, Keccak(name))
  {
    hide RegistryInv, MasjidInv, NamesInv, DeploymentsInv, Blank;
    RegisterIsFresh(w, caller, name);
  }

  lemma RegisterOthers(w: State, tx: Tx, id: MasjidId)
    requires ValidTx(tx) && tx.call.CallRegister?
    requires id != IdHash(w.masjidNonce + 1, tx.caller, Keccak(tx.call.masjidName))
    ensures Next(w, tx).Get(id) == w.Get(id)
  {
  }

  // ---- Handovers ----------------------------------------------------------------------------

  /** In every reachable state a handover commits exactly when the recorded admin of a deployed masjid names
      somebody; the protocol then records the new admin and, on the instance, nobody else holds ADMIN_ROLE. */
  lemma HandoverCommitsExactlyWhen(w: State, tx: Tx)
    requires Inv(w) && ValidTx(tx) && tx.call.CallTransferAdmin?
    ensures var m := w.Get(tx.call.id);
            Execute(w, tx).Ok? <==> tx.caller == m.masjidAdmin && HasInstance(m.status) && tx.call.newAdmin != Zero
    ensures Execute(w, tx).Ok? ==>
              var m, w' := w.Get(tx.call.id), Next(w, tx);
              && w'.Get(tx.call.id) == m.(masjidAdmin := tx.call.newAdmin, updatedAt := tx.now)
              && m.instance in w.instances && m.instance in w'.instances
              && var s, s' := w.instances[m.instance], w'.instances[m.instance];
              && s'.masjidAdmin == tx.call.newAdmin && s'.roles.admin == {tx.call.newAdmin}
              && s'.roles.board == s.roles.board
  {
    hide RegistryInv, NamesInv, BlanksInv, DeploymentsInv, TermsInv, VotesInv, Safety.Inv, I.SetAdmin;
    var id, m := tx.call.id, w.Get(tx.call.id);
    if tx.caller == m.masjidAdmin { HandedOverIsRegistered(w, id); }
    if tx.caller == m.masjidAdmin && HasInstance(m.status) && tx.call.newAdmin != Zero {
      assert MasjidInv(w, id);
      HandsOver(w.instances[m.instance], m.masjidAdmin, tx.call.newAdmin);
    }
  }

  lemma HandedOverIsRegistered(w: State, id: MasjidId)
    requires Inv(w) && w.Get(id).masjidAdmin != Zero
    ensures id in w.masjidById && (w.Get(id).instance != Zero <==> HasInstance(w.Get(id).status))
  {
    hide RegistryInv, NamesInv, BlanksInv, DeploymentsInv, TermsInv, VotesInv, InstanceAgrees;
    assert id in w.masjidById;
    assert MasjidInv(w, id);
  }

  lemma HandsOver(s: I.State, admin: Address, newAdmin: Address)
    requires Protocol in s.roles.protocol && s.masjidAdmin == admin && s.roles.admin <= {admin} && newAdmin != Zero
    ensures var r := I.SetAdmin(s, Protocol, newAdmin);
            && r.Ok? && r.value.state.roles.admin == {newAdmin} && r.value.state.masjidAdmin == newAdmin
            && r.value.state.roles.board == s.roles.board
  {
  }

  /** Nothing else changes the recorded admin of a registered masjid. */
  lemma MasjidAdminFollows(w: State, tx: Tx, id: MasjidId)
    requires Inv(w) && ValidTx(tx) && id in w.masjidById
    ensures Next(w, tx).Get(id).masjidAdmin
            == if && tx.call.CallTransferAdmin? && tx.call.id == id && tx.caller == w.Get(id).masjidAdmin
                  && HasInstance(w.Get(id).status) && tx.call.newAdmin != Zero
               then tx.call.newAdmin else w.Get(id).masjidAdmin
  {
    hide Inv, Execute, Next, HasInstance;
    if tx.call.CallTransferAdmin? && tx.call.id == id {
      HandoverCommitsExactlyWhen(w, tx);
      if Execute(w, tx).Revert? { RevertedStays(w, tx); }
    } else {
      OtherwiseAdminStays(w, tx, id);
    }
  }

  lemma OtherwiseAdminStays(w: State, tx: Tx, id: MasjidId)
    requires Inv(w) && ValidTx(tx) && id in w.masjidById && !(tx.call.CallTransferAdmin? && tx.call.id == id)
    ensures Next(w, tx).Get(id).masjidAdmin == w.Get(id).masjidAdmin
  {
    hide Inv, Attest, TransferAdmin, SetStatus, Register, I.Execute;
    if Execute(w, tx).Ok? {
      match tx.call
      case CallRegister(name, uri, coin, board) => KnownIdIsNotNew(w, tx.caller, name, id); RegisterOthers(w, tx, id);
      case CallAttest(k, support) =>
        if k == id {
          VoteKeepsAdmin(w, tx.caller, tx.now, id, support);
        } else {
          AttestLeavesOthers(w, tx.caller, tx.now, k, support, id);
        }
      case CallTransferAdmin(_, _) => HandoverTouches(w, tx, id);
      case CallFlag(_) => RulingTouches(w, tx, id);
      case CallUnflag(_) => RulingTouches(w, tx, id);
      case CallRevoke(_) => RulingTouches(w, tx, id);
      case _ => ElsewhereCall(w, tx);
    }
  }

  lemma KnownIdIsNotNew(w: State, caller: Address, name: string, id: MasjidId)
    requires Inv(w) && id in w.masjidById
    ensures id != IdHash(w.masjidNonce + 1, caller, Keccak(name))
  {
    hide RegistryInv, MasjidInv, NamesInv, DeploymentsInv, Blank;
    RegisterIsFresh(w, caller, name);
  }

  lemma VoteKeepsAdmin(w: State, caller: Address, now: Timestamp, id: MasjidId, support: bool)
    requires Inv(w) && Attest(w, caller, now, id, support).Ok?
    ensures Attest(w, caller, now, id, support).value.state.Get(id).masjidAdmin == w.Get(id).masjidAdmin
    ensures Attest(w, caller, now, id, support).value.state.Get(id).updatedAt == now
  {
    hide Inv, Verify, RecordVote;
    var w1 := RecordVote(w, caller, now, id, support);
    AttestedIsRegistered(w, caller, now, id, support);
    CallerIsNotZero(w, caller);
    RecordVoteFacts(w, caller, now, id, support);
    RecordVoteKeepsInv(w, caller, now, id, support);
    if w1.Get(id).attestYes >= w.registry.Quorum() { VerifyEffect(w1, now, id); }
  }

  // ---- Registrations ------------------------------------------------------------------------

  /** In every reachable state a registration with a name, a token and a board commits exactly when every masjid
      registered under that name, whoever registered it and however many there are, has been rejected. */
  lemma RegistrationCommitsExactlyWhen(w: State, tx: Tx)
    requires Inv(w) && ValidTx(tx) && tx.call.CallRegister? && w.masjidNonce < MAX_UINT256
    ensures Execute(w, tx).Ok? <==>
            && |tx.call.masjidName| > 0 && tx.call.stablecoin != Zero && |tx.call.board| > 0
            && forall id :: id in w.masjidById && w.Get(id).masjidName == tx.call.masjidName
                            ==> w.Get(id).status == Rejected
  {
    hide RegistryInv, BlanksInv, DeploymentsInv, VotesInv, MirrorInv, MAX_UINT256;
    var hash := Keccak(tx.call.masjidName);
    forall id | id in w.masjidById ensures w.Get(id).masjidName == tx.call.masjidName <==> id.nameHash == hash {
      assert MasjidInv(w, id);
    }
    if hash in w.masjidIdByNameHash {
      var newest := w.masjidIdByNameHash[hash];
      assert newest in w.masjidById && newest.nameHash == hash;
      forall id | id in w.masjidById && id.nameHash == hash && id != newest ensures w.Get(id).status == Rejected {
        assert NameInv(w, id);
      }
    } else {
      forall id | id in w.masjidById ensures id.nameHash != hash { assert NameInv(w, id); }
    }
  }

  /** Step `j` of a run is the registration of `id`, and this is what the protocol recorded of it. */
  ghost predicate RegisteredAt(ws: seq<State>, txs: seq<Tx>, j: nat, id: MasjidId, m: Masjid, board: seq<Address>)
    requires j < |txs| < |ws|
  {
    && txs[j].call.CallRegister? && id !in ws[j].masjidById
    && var c := txs[j].call;
    && id == IdHash(ws[j].masjidNonce + 1, txs[j].caller, Keccak(c.masjidName))
    && ws[j + 1].masjidNonce == ws[j].masjidNonce + 1
    && (m.proposer, m.stablecoin) == (txs[j].caller, c.stablecoin)
    && (m.masjidName, m.metadataUri) == (c.masjidName, c.metadataUri)
    && m.createdAt == txs[j].now && m.cashOutThreshold == |c.board| / 2 + 1 && board == c.board
  }

  /** In every run each registered masjid was registered by one step, and what the protocol has on record of its
      proposer, name, URI, token, board, threshold and time is what that step asked for. */
  lemma {:induction false} RegistrationIsOnRecord(ws: seq<State>, txs: seq<Tx>, n: nat, id: MasjidId) returns (j: nat)
    requires IsRun(ws, txs) && n <= |txs| && id in ws[n].masjidById
    ensures j < n && RegisteredAt(ws, txs, j, id, ws[n].Get(id), ws[n].Board(id))
  {
    hide Inv, Execute, Next, RegisteredAt;
    if n == 0 {
      assert false;
    } else {
      RunKeepsInv(ws, txs, n - 1);
      if id in ws[n - 1].masjidById {
        j := RegistrationIsOnRecord(ws, txs, n - 1, id);
        StepEffect(ws[n - 1], txs[n - 1], id);
        TermsAreKept(ws, txs, j, id, ws[n - 1], ws[n]);
      } else {
        j := n - 1;
        NewMasjidWasRegistered(ws, txs, j, id);
      }
    }
  }

  lemma TermsAreKept(ws: seq<State>, txs: seq<Tx>, j: nat, id: MasjidId, w: State, w': State)
    requires j < |txs| < |ws| && RegisteredAt(ws, txs, j, id, w.Get(id), w.Board(id)) && Evolves(w, w', id)
    ensures RegisteredAt(ws, txs, j, id, w'.Get(id), w'.Board(id))
  {
  }

  lemma NewMasjidWasRegistered(ws: seq<State>, txs: seq<Tx>, j: nat, id: MasjidId)
    requires IsRun(ws, txs) && j < |txs| && Inv(ws[j]) && id !in ws[j].masjidById && id in ws[j + 1].masjidById
    ensures RegisteredAt(ws, txs, j, id, ws[j + 1].Get(id), ws[j + 1].Board(id))
  {
    hide Inv, Attest, TransferAdmin, SetStatus, Register, I.Execute;
    var w, tx := ws[j], txs[j];
    if Execute(w, tx).Ok? {
      match tx.call
      case CallRegister(_, _, _, _) => NewMasjidIsTheRegistered(ws, txs, j, id);
      case CallAttest(k, support) =>
        AttestedIsRegistered(w, tx.caller, tx.now, k, support);
        AttestLeavesOthers(w, tx.caller, tx.now, k, support, id);
      case CallTransferAdmin(k, newAdmin) => TransferAdminRegistersNothing(w, tx.caller, tx.now, k, newAdmin, id);
      case CallFlag(_) => RulingTouches(w, tx, id);
      case CallUnflag(_) => RulingTouches(w, tx, id);
      case CallRevoke(_) => RulingTouches(w, tx, id);
      case _ => ElsewhereCall(w, tx);
    }
  }

  lemma RulingIsOnRegistered(w: State, tx: Tx)
    requires ValidTx(tx) && IsRuling(tx.call) && Execute(w, tx).Ok?
    ensures tx.call.id in w.masjidById
  {
    hide SetStatus;
  }

  lemma NewMasjidIsTheRegistered(ws: seq<State>, txs: seq<Tx>, j: nat, id: MasjidId)
    requires j < |txs| < |ws| && ValidTx(txs[j]) && ws[j + 1] == Next(ws[j], txs[j]) && txs[j].call.CallRegister?
    requires id !in ws[j].masjidById && id in ws[j + 1].masjidById
    ensures RegisteredAt(ws, txs, j, id, ws[j + 1].Get(id), ws[j + 1].Board(id))
  {
  }

  // ---- Votes --------------------------------------------------------------------------------

  /** In every reachable state a vote commits exactly when it is the first of a current verifier on a pending
      masjid and it does not decide for a board that cannot be deployed. */
  lemma VoteCommitsExactlyWhen(w: State, tx: Tx)
    requires Inv(w) && ValidTx(tx) && tx.call.CallAttest?
    requires w.Get(tx.call.id).attestYes < MAX_UINT32 && w.Get(tx.call.id).attestNo < MAX_UINT32
    ensures var id, m := tx.call.id, w.Get(tx.call.id);
            var yes := m.attestYes + (if tx.call.support then 1 else 0);
            Execute(w, tx).Ok? <==>
            && tx.caller in w.registry.verifiers && id in w.masjidById && m.status == Pending
            && tx.caller !in w.HasAttested(id)
            && (yes >= w.registry.Quorum() ==> I.WellFormedBoard(w.Board(id)))
  {
    hide RegistryInv, NamesInv, BlanksInv, DeploymentsInv, Verify, RecordVote, VotesInv, MirrorInv, I.WellFormedBoard;
    var id, support := tx.call.id, tx.call.support;
    if tx.caller in w.registry.verifiers && id in w.masjidById && w.Get(id).status == Pending {
      assert MasjidInv(w, id);
      CallerIsNotZero(w, tx.caller);
      if tx.caller !in w.HasAttested(id) {
        RecordVoteMasjid(w, tx.caller, tx.now, id, support);
        RecordVoteFacts(w, tx.caller, tx.now, id, support);
        VerifyDeploys(RecordVote(w, tx.caller, tx.now, id, support), tx.now, id);
      }
    }
  }

  /** The protocol's calls that name a registered masjid. */
  predicate Concerns(c: Call, id: MasjidId) {
    (c.CallAttest? || c.CallTransferAdmin? || IsRuling(c)) && c.id == id
  }

  /** A masjid was last updated by its registration or by the last committed call that concerned it. */
  lemma UpdateTimeFollows(w: State, tx: Tx, id: MasjidId)
    requires Inv(w) && ValidTx(tx) && id in Next(w, tx).masjidById
    ensures Next(w, tx).Get(id).updatedAt
            == if id !in w.masjidById || (Concerns(tx.call, id) && Execute(w, tx).Ok?) then tx.now
               else w.Get(id).updatedAt
  {
    hide Inv, Execute, Next;
    if id in w.masjidById { KnownUpdateTime(w, tx, id); } else { FreshUpdateTime(w, tx, id); }
  }

  lemma FreshUpdateTime(w: State, tx: Tx, id: MasjidId)
    requires Inv(w) && ValidTx(tx) && id !in w.masjidById && id in Next(w, tx).masjidById
    ensures Next(w, tx).Get(id).updatedAt == tx.now
  {
    hide Inv, Attest, TransferAdmin, SetStatus, I.Execute;
    if Execute(w, tx).Ok? {
      match tx.call
      case CallRegister(_, _, _, _) =>
      case CallAttest(k, support) =>
        AttestedIsRegistered(w, tx.caller, tx.now, k, support);
        AttestLeavesOthers(w, tx.caller, tx.now, k, support, id);
        assert false;
      case CallTransferAdmin(k, newAdmin) =>
        TransferAdminRegistersNothing(w, tx.caller, tx.now, k, newAdmin, id);
        assert false;
      case CallFlag(_) => RulingTouches(w, tx, id); assert false;
      case CallUnflag(_) => RulingTouches(w, tx, id); assert false;
      case CallRevoke(_) => RulingTouches(w, tx, id); assert false;
      case _ => ElsewhereCall(w, tx);
    }
  }

  lemma KnownUpdateTime(w: State, tx: Tx, id: MasjidId)
    requires Inv(w) && ValidTx(tx) && id in w.masjidById
    ensures Next(w, tx).Get(id).updatedAt
            == if Concerns(tx.call, id) && Execute(w, tx).Ok? then tx.now else w.Get(id).updatedAt
  {
    hide Inv, Attest, TransferAdmin, SetStatus, Register, I.Execute;
    if Execute(w, tx).Ok? {
      match tx.call
      case CallRegister(name, uri, coin, board) => KnownIdIsNotNew(w, tx.caller, name, id); RegisterOthers(w, tx, id);
      case CallAttest(k, support) =>
        if k == id {
          VoteKeepsAdmin(w, tx.caller, tx.now, id, support);
        } else {
          AttestedIsRegistered(w, tx.caller, tx.now, k, support);
          AttestLeavesOthers(w, tx.caller, tx.now, k, support, id);
        }
      case CallTransferAdmin(_, _) => HandoverTouches(w, tx, id);
      case CallFlag(_) => RulingTouches(w, tx, id);
      case CallUnflag(_) => RulingTouches(w, tx, id);
      case CallRevoke(_) => RulingTouches(w, tx, id);
      case _ => ElsewhereCall(w, tx);
    }
  }
}
