/** VerifierRegistry, MasjidProtocol, MasjidFactory and every deployed instance as one transition
    system: who may do what, what is written, and which logs a committed call emits. */
module World {
  import opened Types
  import I = Instance

  datatype Registry = Registry(authority: Address, verifierCount: nat, verifiers: set<Address>) {
    function Quorum(): nat { verifierCount / 2 + 1 }
  }

  datatype Status = NoStatus | Pending | Rejected | Verified | Flagged | Revoked

  datatype Masjid = Masjid(
    proposer: Address, masjidAdmin: Address, instance: Address, stablecoin: Address,
    nameHash: NameHash, cashOutThreshold: nat, attestYes: nat, attestNo: nat,
    status: Status, createdAt: nat, updatedAt: nat, masjidName: string, metadataUri: string)

  /** What an unwritten slot of `masjidById` reads as. */
  const NO_MASJID := Masjid(Zero, Zero, Zero, Zero, Keccak(""), 0, 0, 0, NoStatus, 0, 0, "", "")

  datatype State = State(
    admin: Address, registry: Registry, masjidNonce: nat,
    masjidById: map<MasjidId, Masjid>, masjidIdByNameHash: map<NameHash, MasjidId>,
    boards: map<MasjidId, seq<Address>>, attesters: map<MasjidId, seq<Address>>,
    hasAttested: map<MasjidId, set<Address>>,
    factory: map<MasjidId, Address>, deployments: nat, instances: map<Address, I.State>)
  {
    function Get(id: MasjidId): Masjid { if id in masjidById then masjidById[id] else NO_MASJID }

    function Board(id: MasjidId): seq<Address> { if id in boards then boards[id] else [] }

    function Attesters(id: MasjidId): seq<Address> { if id in attesters then attesters[id] else [] }

    function HasAttested(id: MasjidId): set<Address> { if id in hasAttested then hasAttested[id] else {} }

    function FactoryEntry(id: MasjidId): Address { if id in factory then factory[id] else Zero }

    function WithMasjid(id: MasjidId, m: Masjid): State { this.(masjidById := masjidById[id := m]) }

    function WithInstance(a: Address, s: I.State): State { this.(instances := instances[a := s]) }
  }

  datatype Event =
    | MasjidRegistered(id: MasjidId, nameHash: NameHash, proposer: Address, masjidName: string,
                       metadataUri: string, stablecoin: Address, boardMembers: seq<Address>)
    | MasjidAttested(id: MasjidId, verifier: Address, support: bool, yesCount: nat, noCount: nat)
    | MasjidVerified(id: MasjidId, instance: Address, attesters: seq<Address>, yesCount: nat, noCount: nat)
    | MasjidRejected(id: MasjidId, attesters: seq<Address>, yesCount: nat, noCount: nat)
    | MasjidAdminTransferred(id: MasjidId, previousAdmin: Address, newAdmin: Address)
    | MasjidStatusUpdated(id: MasjidId, previousStatus: Status, newStatus: Status)
    | MasjidDeployed(id: MasjidId, instance: Address)
    | AuthorityTransferred(previousAuthority: Address, newAuthority: Address)
    | VerifierAdded(verifier: Address)
    | VerifierRemoved(verifier: Address)
    | InstanceLog(instance: Address, event: I.Event)

  type Outcome = Result<Effect<State, Event>>

  function InstanceLogs(a: Address, events: seq<I.Event>): seq<Event> {
    seq(|events|, i requires 0 <= i < |events| => InstanceLog(a, events[i]))
  }

  /** Commits what a call to the instance at `a` did; a revert of the callee is a revert of the caller. */
  function CommitInstance(w: State, a: Address, r: I.Outcome): Outcome {
    match r
    case Ok(effect) => Ok(Effect(w.WithInstance(a, effect.state), InstanceLogs(a, effect.logs)))
    case Revert(e) => Revert(e)
  }

  // ---- VerifierRegistry ---------------------------------------------------------------------

  function TransferAuthorityOf(r: Registry, caller: Address, newAuthority: Address): Result<Effect<Registry, Event>> {
    if caller != r.authority then Revert(NotAuthority)
    else if newAuthority == Zero then Revert(ZeroAddress)
    else Ok(Effect(r.(authority := newAuthority), [AuthorityTransferred(r.authority, newAuthority)]))
  }

  function AddVerifierTo(r: Registry, caller: Address, verifier: Address): Result<Effect<Registry, Event>> {
    if caller != r.authority then Revert(NotAuthority)
    else if verifier == Zero then Revert(ZeroAddress)
    else if verifier in r.verifiers then Revert(AlreadyVerifier)
    else if r.verifierCount >= MAX_UINT256 then Revert(Panic)
    else Ok(Effect(r.(verifiers := r.verifiers + {verifier}, verifierCount := r.verifierCount + 1),
                   [VerifierAdded(verifier)]))
  }

  function RemoveVerifierFrom(r: Registry, caller: Address, verifier: Address): Result<Effect<Registry, Event>> {
    if caller != r.authority then Revert(NotAuthority)
    else if verifier !in r.verifiers then Revert(NotVerifier)
    else if r.verifierCount == 0 then Revert(Panic)
    else Ok(Effect(r.(verifiers := r.verifiers - {verifier}, verifierCount := r.verifierCount - 1),
                   [VerifierRemoved(verifier)]))
  }

  /** A call to the registry touches nothing else. */
  function CommitRegistry(w: State, r: Result<Effect<Registry, Event>>): Outcome {
    match r
    case Ok(effect) => Ok(Effect(w.(registry := effect.state), effect.logs))
    case Revert(e) => Revert(e)
  }

  function TransferAuthority(w: State, caller: Address, newAuthority: Address): Outcome {
    CommitRegistry(w, TransferAuthorityOf(w.registry, caller, newAuthority))
  }

  function AddVerifier(w: State, caller: Address, verifier: Address): Outcome {
    CommitRegistry(w, AddVerifierTo(w.registry, caller, verifier))
  }

  function RemoveVerifier(w: State, caller: Address, verifier: Address): Outcome {
    CommitRegistry(w, RemoveVerifierFrom(w.registry, caller, verifier))
  }

  // ---- MasjidFactory ------------------------------------------------------------------------

  function DeployMasjid(w: State, caller: Address, now: Timestamp, id: MasjidId, masjidName: string,
                        masjidAdmin: Address, stablecoin: Address, board: seq<Address>, threshold: nat): Outcome {
    if caller != Protocol then Revert(OnlyProtocol)
    else if |masjidName| == 0 then Revert(EmptyName)
    else if masjidAdmin == Zero || stablecoin == Zero then Revert(ZeroAddress)
    else if w.FactoryEntry(id) != Zero then Revert(AlreadyDeployed)
    else Instantiate(w, now, id, masjidAdmin, stablecoin, board, threshold)
  }

  /** `new MasjidInstance` at the next address; a revert of the constructor is one of the factory. */
  function Instantiate(w: State, now: Timestamp, id: MasjidId, masjidAdmin: Address, stablecoin: Address,
                       board: seq<Address>, threshold: nat): Outcome {
    var a := Deployed(w.deployments);
    match I.Construct(Protocol, id, masjidAdmin, stablecoin, board, threshold, now)
    case Revert(e) => Revert(e)
    case Ok(effect) =>
      Ok(Effect(w.WithInstance(a, effect.state).(factory := w.factory[id := a], deployments := w.deployments + 1),
                InstanceLogs(a, effect.logs) + [MasjidDeployed(id, a)]))
  }

  // ---- MasjidProtocol -----------------------------------------------------------------------

  /** What a registration writes into a slot. */
  function Entered(m: Masjid, proposer: Address, now: Timestamp, masjidName: string, metadataUri: string,
                   stablecoin: Address, board: seq<Address>): Masjid {
    m.(proposer := proposer, masjidAdmin := proposer, stablecoin := stablecoin, nameHash := Keccak(masjidName),
       cashOutThreshold := |board| / 2 + 1, status := Pending, createdAt := now, updatedAt := now,
       masjidName := masjidName, metadataUri := metadataUri)
  }

  function Register(w: State, caller: Address, now: Timestamp, masjidName: string, metadataUri: string,
                    stablecoin: Address, board: seq<Address>): Outcome {
    var nameHash := Keccak(masjidName);
    if |masjidName| == 0 then Revert(EmptyName)
    else if stablecoin == Zero then Revert(ZeroAddress)
    else if |board| == 0 then Revert(ZeroAddress)
    else if nameHash in w.masjidIdByNameHash && w.Get(w.masjidIdByNameHash[nameHash]).status != Rejected
    then Revert(AlreadyRegisteredName)
    else if w.masjidNonce >= MAX_UINT256 then Revert(Panic)
    else
      var nonce := w.masjidNonce + 1;
      var id := IdHash(nonce, caller, nameHash);
      var m := Entered(w.Get(id), caller, now, masjidName, metadataUri, stablecoin, board);
      Ok(Effect(
        w.WithMasjid(id, m).(masjidNonce := nonce, boards := w.boards[id := board],
                             masjidIdByNameHash := w.masjidIdByNameHash[nameHash := id]),
        [MasjidRegistered(id, nameHash, caller, masjidName, metadataUri, stablecoin, board)]))
  }

  function Counted(m: Masjid, support: bool, now: Timestamp): Masjid {
    if support then m.(attestYes := m.attestYes + 1, updatedAt := now)
    else m.(attestNo := m.attestNo + 1, updatedAt := now)
  }

  /** The vote itself, before the quorum is looked at. */
  function RecordVote(w: State, caller: Address, now: Timestamp, id: MasjidId, support: bool): State {
    w.WithMasjid(id, Counted(w.Get(id), support, now)).(
      hasAttested := w.hasAttested[id := w.HasAttested(id) + {caller}],
      attesters := w.attesters[id := w.Attesters(id) + [caller]])
  }

  function Attest(w: State, caller: Address, now: Timestamp, id: MasjidId, support: bool): Outcome {
    var m := w.Get(id);
    if caller !in w.registry.verifiers then Revert(NotAuthorizedVerifier)
    else if m.createdAt == 0 then Revert(MasjidNotFound)
    else if m.status != Pending then Revert(InvalidStatus)
    else if caller in w.HasAttested(id) then Revert(AlreadyAttested)
    else if (if support then m.attestYes else m.attestNo) >= MAX_UINT32 then Revert(Panic)
    else
      var w' := RecordVote(w, caller, now, id, support);
      var m' := w'.Get(id);
      var log := MasjidAttested(id, caller, support, m'.attestYes, m'.attestNo);
      Decide(w', w.registry.Quorum(), now, id, log)
  }

  /** What the votes so far decide, after the log of the last one. */
  function Decide(w: State, quorum: nat, now: Timestamp, id: MasjidId, log: Event): Outcome {
    var m := w.Get(id);
    if m.attestYes >= quorum then
      match Verify(w, now, id)
      case Ok(effect) => Ok(effect.(logs := [log] + effect.logs))
      case Revert(e) => Revert(e)
    else if m.attestNo >= quorum then
      Ok(Effect(w.WithMasjid(id, m.(status := Rejected, updatedAt := now)),
                [log, MasjidRejected(id, w.Attesters(id), m.attestYes, m.attestNo)]))
    else Ok(Effect(w, [log]))
  }

  /** _verified: deploys the instance, then marks both sides verified. */
  function Verify(w: State, now: Timestamp, id: MasjidId): Outcome {
    var m := w.Get(id);
    match DeployMasjid(w, Protocol, now, id, m.masjidName, m.proposer, m.stablecoin, w.Board(id), m.cashOutThreshold)
    case Revert(e) => Revert(e)
    case Ok(deployed) =>
      var a := deployed.state.FactoryEntry(id);
      var w' := deployed.state.WithMasjid(id, m.(instance := a, status := Verified, updatedAt := now));
      match SetInstanceStatus(w', now, a, I.Verified)
      case Revert(e) => Revert(e)
      case Ok(effect) =>
        Ok(Effect(effect.state,
                  deployed.logs + effect.logs + [MasjidVerified(id, a, w.Attesters(id), m.attestYes, m.attestNo)]))
  }

  /** A call to an address without code reverts. */
  function SetInstanceStatus(w: State, now: Timestamp, a: Address, status: I.Verification): Outcome {
    if a !in w.instances then Revert(Panic)
    else CommitInstance(w, a, I.SetStatus(w.instances[a], Protocol, now, status))
  }

  function SetInstanceAdmin(w: State, a: Address, newAdmin: Address): Outcome {
    if a !in w.instances then Revert(Panic)
    else CommitInstance(w, a, I.SetAdmin(w.instances[a], Protocol, newAdmin))
  }

  function TransferAdmin(w: State, caller: Address, now: Timestamp, id: MasjidId, newAdmin: Address): Outcome {
    var m := w.Get(id);
    if m.masjidAdmin != caller then Revert(NotMasjidAdmin)
    else if m.instance == Zero then Revert(MasjidNotFound)
    else if newAdmin == Zero then Revert(ZeroAddress)
    else
      var w' := w.WithMasjid(id, m.(masjidAdmin := newAdmin, updatedAt := now));
      match SetInstanceAdmin(w', m.instance, newAdmin)
      case Revert(e) => Revert(e)
      case Ok(effect) => Ok(effect.(logs := effect.logs + [MasjidAdminTransferred(id, m.masjidAdmin, newAdmin)]))
  }

  function SetStatus(w: State, now: Timestamp, id: MasjidId, status: Status, mirrored: I.Verification): Outcome {
    var m := w.Get(id);
    var w' := w.WithMasjid(id, m.(status := status, updatedAt := now));
    match SetInstanceStatus(w', now, m.instance, mirrored)
    case Revert(e) => Revert(e)
    case Ok(effect) => Ok(effect.(logs := effect.logs + [MasjidStatusUpdated(id, m.status, status)]))
  }

  function Flag(w: State, caller: Address, now: Timestamp, id: MasjidId): Outcome {
    if caller != w.admin then Revert(NotAdmin)
    else if w.Get(id).instance == Zero then Revert(MasjidNotFound)
    else if w.Get(id).status != Verified then Revert(InvalidStatus)
    else SetStatus(w, now, id, Flagged, I.Flagged)
  }

  function Unflag(w: State, caller: Address, now: Timestamp, id: MasjidId): Outcome {
    if caller != w.admin then Revert(NotAdmin)
    else if w.Get(id).instance == Zero then Revert(MasjidNotFound)
    else if w.Get(id).status != Flagged then Revert(InvalidStatus)
    else SetStatus(w, now, id, Verified, I.Verified)
  }

  function Revoke(w: State, caller: Address, now: Timestamp, id: MasjidId): Outcome {
    if caller != w.admin then Revert(NotAdmin)
    else if w.Get(id).instance == Zero then Revert(MasjidNotFound)
    else if w.Get(id).status != Verified && w.Get(id).status != Flagged then Revert(InvalidStatus)
    else SetStatus(w, now, id, Revoked, I.Revoked)
  }

  // ---- The whole system ---------------------------------------------------------------------

  datatype Call =
    | CallTransferAuthority(newAuthority: Address)
    | CallAddVerifier(verifier: Address)
    | CallRemoveVerifier(verifier: Address)
    | CallRegister(masjidName: string, metadataUri: string, stablecoin: Address, board: seq<Address>)
    | CallAttest(id: MasjidId, support: bool)
    | CallTransferAdmin(id: MasjidId, newAdmin: Address)
    | CallFlag(id: MasjidId)
    | CallUnflag(id: MasjidId)
    | CallRevoke(id: MasjidId)
    | CallInstance(instance: Address, call: I.Call)

  datatype Tx = Tx(caller: Address, now: Timestamp, call: Call)

  predicate ValidTx(tx: Tx) {
    tx.caller.Account? && (tx.call.CallInstance? ==> I.ValidCall(tx.call.call))
  }

  function Execute(w: State, tx: Tx): Outcome
    requires ValidTx(tx)
  {
    match tx.call
    case CallTransferAuthority(newAuthority) => TransferAuthority(w, tx.caller, newAuthority)
    case CallAddVerifier(verifier) => AddVerifier(w, tx.caller, verifier)
    case CallRemoveVerifier(verifier) => RemoveVerifier(w, tx.caller, verifier)
    case CallRegister(name, uri, stablecoin, board) => Register(w, tx.caller, tx.now, name, uri, stablecoin, board)
    case CallAttest(id, support) => Attest(w, tx.caller, tx.now, id, support)
    case CallTransferAdmin(id, newAdmin) => TransferAdmin(w, tx.caller, tx.now, id, newAdmin)
    case CallFlag(id) => Flag(w, tx.caller, tx.now, id)
    case CallUnflag(id) => Unflag(w, tx.caller, tx.now, id)
    case CallRevoke(id) => Revoke(w, tx.caller, tx.now, id)
    case CallInstance(a, call) =>
      if a !in w.instances then Revert(Panic)
      else CommitInstance(w, a, I.Execute(w.instances[a], I.Tx(tx.caller, tx.now, call)))
  }

  function Next(w: State, tx: Tx): State
    requires ValidTx(tx)
  {
    match Execute(w, tx)
    case Ok(effect) => effect.state
    case Revert(_) => w
  }

  /** The logs of a transaction; a reverted one has none. */
  function Logs(w: State, tx: Tx): seq<Event>
    requires ValidTx(tx)
  {
    match Execute(w, tx)
    case Ok(effect) => effect.logs
    case Revert(_) => []
  }

  /** Just after the registry and the protocol (with its factory) are deployed. */
  ghost predicate Initial(w: State) {
    && w.registry.authority != Zero
    && w.registry.verifiers == {} && w.registry.verifierCount == 0
    && w.masjidNonce == 0 && w.deployments == 0
    && w.masjidById == map[] && w.masjidIdByNameHash == map[] && w.boards == map[]
    && w.attesters == map[] && w.hasAttested == map[]
    && w.factory == map[] && w.instances == map[]
  }

  /** `ws[i]` is the state before `txs[i]`; block time never goes back. */
  ghost predicate IsRun(ws: seq<State>, txs: seq<Tx>) {
    && |ws| == |txs| + 1
    && Initial(ws[0])
    && (forall i :: 0 <= i < |txs| ==> ValidTx(txs[i]) && ws[i + 1] == Next(ws[i], txs[i]))
    && (forall i, j :: 0 <= i <= j < |txs| ==> txs[i].now <= txs[j].now)
  }
}
