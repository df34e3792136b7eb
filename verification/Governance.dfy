/** Properties of whole runs of the protocol: votes, names, statuses, and the life of each instance. */
module Governance {
  import opened Types
  import opened World
  import opened WorldSafety
  import I = Instance
  import Safety = InstanceSafety

  // ---- Agreement between protocol, factory and instances ------------------------------------

  /** In every reachable state a masjid has an instance exactly when it is verified, flagged or revoked;
      the factory then names the same address, and the instance's status, admin and token are the
      protocol's, with nobody but that admin holding ADMIN_ROLE. */
  lemma ProtocolAndInstanceAgree(ws: seq<State>, txs: seq<Tx>, n: nat, id: MasjidId)
    requires IsRun(ws, txs) && n <= |txs| && id in ws[n].masjidById
    ensures var w := ws[n];
            var m := w.Get(id);
            && (m.instance != Zero <==> HasInstance(m.status))
            && w.FactoryEntry(id) == m.instance
            && (m.instance == Zero ==> m.masjidAdmin == m.proposer)
            && (m.instance != Zero ==> m.instance in w.instances && InstanceAgrees(w, id, w.instances[m.instance]))
  {
    hide Execute, NamesInv, BlanksInv, DeploymentsInv, InstanceAgrees;
    RunKeepsInv(ws, txs, n);
    assert MasjidInv(ws[n], id);
  }

  /** No two masjids share an instance, in any reachable state. */
  lemma OneInstancePerMasjid(ws: seq<State>, txs: seq<Tx>, n: nat, id: MasjidId, k: MasjidId)
    requires IsRun(ws, txs) && n <= |txs| && id in ws[n].masjidById && k in ws[n].masjidById
    requires ws[n].Get(id).instance == ws[n].Get(k).instance != Zero
    ensures id == k
  {
    hide Execute, NamesInv, BlanksInv, DeploymentsInv, MasjidInv;
    RunKeepsInv(ws, txs, n);
    InstancesAreDistinct(ws[n], id, k);
  }

  // ---- What one step does to a masjid -------------------------------------------------------

  /** The edges of the status diagram. */
  predicate StatusMove(s: Status, s': Status) {
    || s == s'
    || (s == Pending && (s' == Verified || s' == Rejected))
    || (s == Verified && (s' == Flagged || s' == Revoked))
    || (s == Flagged && (s' == Verified || s' == Revoked))
  }

  ghost predicate SameVotes(w: State, w': State, id: MasjidId) {
    && w'.Attesters(id) == w.Attesters(id) && w'.HasAttested(id) == w.HasAttested(id)
    && w'.Get(id).attestYes == w.Get(id).attestYes && w'.Get(id).attestNo == w.Get(id).attestNo
  }

  /** A registered masjid keeps its terms, its board and any instance address, and moves along the status diagram. */
  ghost predicate Evolves(w: State, w': State, id: MasjidId) {
    var m, m' := w.Get(id), w'.Get(id);
    && id in w'.masjidById
    && (m'.proposer, m'.stablecoin, m'.nameHash, m'.cashOutThreshold, m'.createdAt, m'.masjidName, m'.metadataUri)
       == (m.proposer, m.stablecoin, m.nameHash, m.cashOutThreshold, m.createdAt, m.masjidName, m.metadataUri)
    && w'.Board(id) == w.Board(id)
    && (m.instance != Zero ==> m'.instance == m.instance)
    && StatusMove(m.status, m'.status)
  }

  ghost predicate JustRegistered(w: State, id: MasjidId) {
    && id in w.masjidById && w.Get(id).status == Pending
    && w.Get(id).attestYes == 0 && w.Get(id).attestNo == 0 && w.Attesters(id) == []
  }

  lemma RegisterEffect(w: State, caller: Address, now: Timestamp, name: string, uri: string,
                       coin: Address, board: seq<Address>, k: MasjidId)
    requires Inv(w) && Register(w, caller, now, name, uri, coin, board).Ok?
    ensures var w' := Register(w, caller, now, name, uri, coin, board).value.state;
            && (k in w.masjidById ==> Evolves(w, w', k) && SameVotes(w, w', k))
            && (k !in w.masjidById ==> k !in w'.masjidById || JustRegistered(w', k))
  {
    hide DeploymentsInv, NamesInv, RegistryInv, MasjidInv;
    var id := IdHash(w.masjidNonce + 1, caller, Keccak(name));
    RegisterIsFresh(w, caller, name);
  }

  /** A committed vote on `id` ends in one of three ways. */
  lemma AttestEffect(w: State, caller: Address, now: Timestamp, id: MasjidId, support: bool)
    requires Inv(w) && Attest(w, caller, now, id, support).Ok?
    ensures id in w.masjidById && w.Get(id).status == Pending
    ensures caller in w.registry.verifiers && caller !in w.HasAttested(id)
    ensures var w' := Attest(w, caller, now, id, support).value.state;
            var yes := w.Get(id).attestYes + (if support then 1 else 0);
            var no := w.Get(id).attestNo + (if support then 0 else 1);
            && Evolves(w, w', id) && w'.registry == w.registry
            && (w'.Get(id).attestYes, w'.Get(id).attestNo) == (yes, no)
            && w'.Attesters(id) == w.Attesters(id) + [caller] && w'.HasAttested(id) == w.HasAttested(id) + {caller}
            && w'.Get(id).status == (if yes >= w.registry.Quorum() then Verified
                                     else if no >= w.registry.Quorum() then Rejected else Pending)
  {
    hide Inv, Verify, RecordVote;
    var w1 := RecordVote(w, caller, now, id, support);
    RecordVoteFacts(w, caller, now, id, support);
    AttestedIsRegistered(w, caller, now, id, support);
    if w1.Get(id).attestYes >= w.registry.Quorum() {
      CallerIsNotZero(w, caller);
      RecordVoteKeepsInv(w, caller, now, id, support);
      VerifyEffect(w1, now, id);
    }
  }

  lemma CallerIsNotZero(w: State, caller: Address)
    requires Inv(w) && caller in w.registry.verifiers
    ensures caller != Zero
  {
    hide MasjidsInv, NamesInv, BlanksInv, DeploymentsInv;
  }

  lemma AttestedIsRegistered(w: State, caller: Address, now: Timestamp, id: MasjidId, support: bool)
    requires Attest(w, caller, now, id, support).Ok?
    ensures id in w.masjidById && w.Get(id).status == Pending
  {
    hide Verify, RecordVote;
  }

  lemma VerifyEffect(w: State, now: Timestamp, id: MasjidId)
    requires Inv(w) && id in w.masjidById && w.Get(id).status == Pending && Verify(w, now, id).Ok?
    ensures w.Get(id).instance == Zero
    ensures var w' := Verify(w, now, id).value.state;
            && w'.Get(id) == w.Get(id).(instance := Deployed(w.deployments), status := Verified, updatedAt := now)
            && id in w'.masjidById && w'.Board(id) == w.Board(id) && w'.registry == w.registry
            && w'.Attesters(id) == w.Attesters(id) && w'.HasAttested(id) == w.HasAttested(id)
            && (forall k :: k != id ==> (k in w'.masjidById <==> k in w.masjidById) && w'.Get(k) == w.Get(k)
                                        && w'.Board(k) == w.Board(k) && SameVotes(w, w', k))
  {
    hide NamesInv, BlanksInv, DeploymentsInv, RegistryInv, Verify, MasjidInv, Safety.Inv;
    VerifyDeploys(w, now, id);
    PendingHasNoInstance(w, id);
  }

  lemma RecordVoteElsewhere(w: State, caller: Address, now: Timestamp, id: MasjidId, support: bool, k: MasjidId)
    requires k != id
    ensures var w' := RecordVote(w, caller, now, id, support);
            && (k in w'.masjidById <==> k in w.masjidById)
            && w'.Get(k) == w.Get(k) && w'.Board(k) == w.Board(k) && SameVotes(w, w', k)
  {
  }

  lemma DecisionLeavesOthers(w: State, quorum: nat, now: Timestamp, id: MasjidId, log: Event, k: MasjidId)
    requires Inv(w) && id in w.masjidById && w.Get(id).status == Pending && k != id
    requires Decide(w, quorum, now, id, log).Ok?
    ensures var w' := Decide(w, quorum, now, id, log).value.state;
            && (k in w'.masjidById <==> k in w.masjidById)
            && w'.Get(k) == w.Get(k) && w'.Board(k) == w.Board(k) && SameVotes(w, w', k)
  {
    hide Inv, Verify, SameVotes;
    if w.Get(id).attestYes >= quorum {
      VerifyEffect(w, now, id);
    } else {
      OtherWrite(w, id, w.Get(id).(status := Rejected, updatedAt := now), k);
    }
  }

  lemma OtherWrite(w: State, id: MasjidId, m: Masjid, k: MasjidId)
    requires k != id
    ensures SameVotes(w, w.WithMasjid(id, m), k) && SameVotes(w, w, k)
  {
  }

  lemma AttestLeavesOthers(w: State, caller: Address, now: Timestamp, id: MasjidId, support: bool, k: MasjidId)
    requires Inv(w) && Attest(w, caller, now, id, support).Ok? && k != id
    ensures var w' := Attest(w, caller, now, id, support).value.state;
            && (k in w'.masjidById <==> k in w.masjidById)
            && w'.Get(k) == w.Get(k) && w'.Board(k) == w.Board(k) && SameVotes(w, w', k)
  {
    hide Inv, Decide, RecordVote;
    var w1 := RecordVote(w, caller, now, id, support);
    var log := MasjidAttested(id, caller, support, w1.Get(id).attestYes, w1.Get(id).attestNo);
    AttestedIsRegistered(w, caller, now, id, support);
    CallerIsNotZero(w, caller);
    RecordVoteFacts(w, caller, now, id, support);
    RecordVoteKeepsInv(w, caller, now, id, support);
    RecordVoteElsewhere(w, caller, now, id, support, k);
    DecisionLeavesOthers(w1, w.registry.Quorum(), now, id, log, k);
  }

  lemma TransferAdminEffect(w: State, caller: Address, now: Timestamp, id: MasjidId, newAdmin: Address, k: MasjidId)
    requires TransferAdmin(w, caller, now, id, newAdmin).Ok? && k in w.masjidById
    ensures var w' := TransferAdmin(w, caller, now, id, newAdmin).value.state;
            Evolves(w, w', k) && SameVotes(w, w', k)
  {
    hide I.SetAdmin;
  }

  /** What a step from `w` to `w'` may do to masjid `k`, given whether it is a vote on `k`. */
  ghost predicate Step(w: State, w': State, k: MasjidId, voteOnK: bool) {
    && (k in w.masjidById ==> Evolves(w, w', k) && (SameVotes(w, w', k) || voteOnK))
    && (k !in w.masjidById ==> k !in w'.masjidById || JustRegistered(w', k))
  }

  lemma ElsewhereStep(w: State, w': State, k: MasjidId)
    requires (w'.masjidById, w'.boards, w'.attesters, w'.hasAttested)
             == (w.masjidById, w.boards, w.attesters, w.hasAttested)
    ensures Step(w, w', k, false)
  {
  }

  lemma AttestStep(w: State, caller: Address, now: Timestamp, id: MasjidId, support: bool, k: MasjidId)
    requires Inv(w) && Attest(w, caller, now, id, support).Ok?
    ensures Step(w, Attest(w, caller, now, id, support).value.state, k, k == id)
  {
    hide Inv, Attest;
    AttestEffect(w, caller, now, id, support);
    if k != id { AttestLeavesOthers(w, caller, now, id, support, k); }
  }

  lemma TransferAdminStep(w: State, caller: Address, now: Timestamp, id: MasjidId, newAdmin: Address, k: MasjidId)
    requires TransferAdmin(w, caller, now, id, newAdmin).Ok?
    ensures Step(w, TransferAdmin(w, caller, now, id, newAdmin).value.state, k, false)
  {
    hide TransferAdmin;
    if k in w.masjidById {
      TransferAdminEffect(w, caller, now, id, newAdmin, k);
    } else {
      TransferAdminRegistersNothing(w, caller, now, id, newAdmin, k);
    }
  }

  lemma RegisterStep(w: State, caller: Address, now: Timestamp, name: string, uri: string,
                     coin: Address, board: seq<Address>, k: MasjidId)
    requires Inv(w) && Register(w, caller, now, name, uri, coin, board).Ok?
    ensures Step(w, Register(w, caller, now, name, uri, coin, board).value.state, k, false)
  {
    hide Inv, Register;
    RegisterEffect(w, caller, now, name, uri, coin, board, k);
  }

  predicate VoteOn(w: State, tx: Tx, k: MasjidId)
    requires ValidTx(tx)
  {
    tx.call.CallAttest? && tx.call.id == k && Execute(w, tx).Ok?
  }

  /** Whatever the step, a registered masjid keeps its terms and follows the status diagram, and only a
      committed vote on it touches its votes; an unregistered one stays so or starts out pending. */
  lemma StepEffect(w: State, tx: Tx, k: MasjidId)
    requires Inv(w) && ValidTx(tx)
    ensures Step(w, Next(w, tx), k, VoteOn(w, tx, k))
  {
    hide Inv, Attest, TransferAdmin, SetStatus, Register, I.Execute, Evolves, SameVotes, JustRegistered, Step;
    hide AddVerifier, RemoveVerifier, TransferAuthority;
    if Execute(w, tx).Ok? {
      match tx.call
      case CallRegister(name, uri, coin, board) => RegisterStep(w, tx.caller, tx.now, name, uri, coin, board, k);
      case CallAttest(id, support) => AttestStep(w, tx.caller, tx.now, id, support, k);
      case CallTransferAdmin(id, newAdmin) => TransferAdminStep(w, tx.caller, tx.now, id, newAdmin, k);
      case CallFlag(id) => StatusCallEffect(w, tx.now, id, Flagged, k);
      case CallUnflag(id) => StatusCallEffect(w, tx.now, id, Verified, k);
      case CallRevoke(id) => StatusCallEffect(w, tx.now, id, Revoked, k);
      case _ => ElsewhereCall(w, tx); ElsewhereStep(w, Next(w, tx), k);
    } else {
      ElsewhereStep(w, Next(w, tx), k);
    }
  }

  lemma ElsewhereCall(w: State, tx: Tx)
    requires ValidTx(tx)
    requires tx.call.CallTransferAuthority? || tx.call.CallAddVerifier? || tx.call.CallRemoveVerifier?
             || tx.call.CallInstance?
    ensures var w' := Next(w, tx);
            (w'.masjidById, w'.boards, w'.attesters, w'.hasAttested)
            == (w.masjidById, w.boards, w.attesters, w.hasAttested)
  {
    hide I.Execute;
  }

  lemma StatusCallEffect(w: State, now: Timestamp, id: MasjidId, status: Status, k: MasjidId)
    requires SetStatus(w, now, id, status, Mirrored(status)).Ok?
    requires w.Get(id).instance != Zero && StatusMove(w.Get(id).status, status)
    ensures Step(w, SetStatus(w, now, id, status, Mirrored(status)).value.state, k, false)
  {
  }

  lemma TransferAdminRegistersNothing(w: State, caller: Address, now: Timestamp, id: MasjidId, newAdmin: Address,
                                      k: MasjidId)
    requires TransferAdmin(w, caller, now, id, newAdmin).Ok? && k !in w.masjidById
    ensures k !in TransferAdmin(w, caller, now, id, newAdmin).value.state.masjidById
  {
    hide I.SetAdmin;
  }

  // ---- Statuses over whole runs -------------------------------------------------------------

  /** From a terminal status there is no way out. */
  predicate Terminal(s: Status) { s == Rejected || s == Revoked }

  /** Rejected and revoked are for ever; a registration and its terms are never lost. */
  lemma {:induction false} TerminalForever(ws: seq<State>, txs: seq<Tx>, m: nat, n: nat, id: MasjidId)
    requires IsRun(ws, txs) && m <= n <= |txs| && id in ws[m].masjidById
    ensures id in ws[n].masjidById
    ensures ws[n].Board(id) == ws[m].Board(id) && ws[n].Get(id).proposer == ws[m].Get(id).proposer
    ensures Terminal(ws[m].Get(id).status) ==> ws[n].Get(id).status == ws[m].Get(id).status
  {
    hide Execute, Inv;
    if m == n {
    } else {
      TerminalForever(ws, txs, m, n - 1, id);
      RunKeepsInv(ws, txs, n - 1);
      StepEffect(ws[n - 1], txs[n - 1], id);
    }
  }

  // ---- Names --------------------------------------------------------------------------------

  /** At any time the registrations of one name are all rejected but for the newest, which is the one the
      name index holds; and the older ones stay rejected from then on. */
  lemma NamesAreUnique(ws: seq<State>, txs: seq<Tx>, m: nat, n: nat, id: MasjidId, k: MasjidId)
    requires IsRun(ws, txs) && m <= n <= |txs|
    requires id in ws[m].masjidById && k in ws[m].masjidById
    requires ws[m].Get(id).nameHash == ws[m].Get(k).nameHash
    requires id.nonce < k.nonce
    ensures ws[n].Get(id).status == Rejected
    ensures ws[m].Get(id).nameHash in ws[m].masjidIdByNameHash
    ensures var newest := ws[m].masjidIdByNameHash[ws[m].Get(id).nameHash]; newest != id && k.nonce <= newest.nonce
  {
    hide Execute, BlanksInv, DeploymentsInv, VotesInv, MirrorInv;
    RunKeepsInv(ws, txs, m);
    assert NameInv(ws[m], id) && MasjidInv(ws[m], id);
    assert NameInv(ws[m], k) && MasjidInv(ws[m], k);
    TerminalForever(ws, txs, m, n, id);
  }

  lemma AtMostOneLivePerName(ws: seq<State>, txs: seq<Tx>, n: nat, id: MasjidId, k: MasjidId)
    requires IsRun(ws, txs) && n <= |txs|
    requires id in ws[n].masjidById && k in ws[n].masjidById
    requires ws[n].Get(id).nameHash == ws[n].Get(k).nameHash
    requires ws[n].Get(id).status != Rejected && ws[n].Get(k).status != Rejected
    ensures id == k
    ensures id.nameHash in ws[n].masjidIdByNameHash && ws[n].masjidIdByNameHash[id.nameHash] == id
  {
    hide Execute, BlanksInv, DeploymentsInv, VotesInv, MirrorInv;
    RunKeepsInv(ws, txs, n);
    assert NameInv(ws[n], id) && MasjidInv(ws[n], id);
    assert NameInv(ws[n], k) && MasjidInv(ws[n], k);
  }

  // ---- Boards -------------------------------------------------------------------------------

  /** A registration whose board has a zero address or a repetition is never verified, in any run. */
  lemma IllFormedBoardIsNeverVerified(ws: seq<State>, txs: seq<Tx>, m: nat, n: nat, id: MasjidId)
    requires IsRun(ws, txs) && m <= n <= |txs| && id in ws[m].masjidById
    requires !I.WellFormedBoard(ws[m].Board(id))
    ensures !HasInstance(ws[n].Get(id).status) && ws[n].Get(id).instance == Zero
  {
    hide Execute, NamesInv, BlanksInv, DeploymentsInv, I.WellFormedBoard;
    TerminalForever(ws, txs, m, n, id);
    RunKeepsInv(ws, txs, n);
    assert MasjidInv(ws[n], id);
  }

  ghost predicate DecisiveYes(w: State, caller: Address, id: MasjidId) {
    && caller in w.registry.verifiers && caller !in w.HasAttested(id)
    && w.Get(id).status == Pending
    && w.Get(id).attestYes < MAX_UINT32
    && w.Get(id).attestYes + 1 >= w.registry.Quorum()
  }

  /** The yes vote that reaches the quorum reverts on an ill-formed board, so nothing at all changes. On
      any other board it deploys an instance that starts verified, with every listed member on the board
      and counted, the proposer as admin, and a strict majority of the board as its threshold. */
  lemma DecisiveYesDeploysOrReverts(w: State, caller: Address, now: Timestamp, id: MasjidId)
    requires Inv(w) && DecisiveYes(w, caller, id)
    ensures Attest(w, caller, now, id, true).Ok? <==> I.WellFormedBoard(w.Board(id))
    ensures Attest(w, caller, now, id, true).Ok? ==>
              var w' := Attest(w, caller, now, id, true).value.state;
              var board := w.Board(id);
              && w'.Get(id).instance == Deployed(w.deployments)
              && Deployed(w.deployments) in w'.instances
              && var s := w'.instances[Deployed(w.deployments)];
              && s.status == I.Verified && s.id == id
              && s.roles.admin == {w.Get(id).proposer} && s.roles.board == ToSet(board)
              && s.boardMemberCount == |board| == |s.roles.board|
              && s.cashOutThreshold == |board| / 2 + 1 <= |board| < 2 * s.cashOutThreshold
  {
    hide NamesInv, BlanksInv, DeploymentsInv, RegistryInv, MasjidsInv, Verify, RecordVote, VotesInv, MirrorInv;
    hide I.WellFormedBoard, Safety.Inv;
    DecisiveYesFacts(w, caller, now, id);
    VerifyDeploys(RecordVote(w, caller, now, id, true), now, id);
  }

  lemma DecisiveYesFacts(w: State, caller: Address, now: Timestamp, id: MasjidId)
    requires Inv(w) && DecisiveYes(w, caller, id)
    ensures id in w.masjidById && MasjidInv(w, id)
    ensures var w1 := RecordVote(w, caller, now, id, true);
            && MasjidInv(w1, id) && w1.Get(id).status == Pending && w1.Board(id) == w.Board(id)
            && w1.deployments == w.deployments && w1.Get(id).attestYes == w.Get(id).attestYes + 1
            && w1.Get(id).proposer == w.Get(id).proposer && w1.Get(id).cashOutThreshold == w.Get(id).cashOutThreshold
  {
    hide NamesInv, BlanksInv, DeploymentsInv, RecordVote, MasjidInv;
    assert id in w.masjidById;
    assert MasjidInv(w, id);
    RecordVoteMasjid(w, caller, now, id, true);
    RecordVoteFacts(w, caller, now, id, true);
    RecordVoteDeploysNothing(w, caller, now, id, true);
  }

  lemma RecordVoteDeploysNothing(w: State, caller: Address, now: Timestamp, id: MasjidId, support: bool)
    ensures RecordVote(w, caller, now, id, support).deployments == w.deployments
  {
  }
}
