/** VerifierRegistry, MasjidFactory and MasjidProtocol in place, proved against the specification: a call
    either does what it says or, whatever it had written before failing, leaves all storage as it was. */
module ProtocolContracts {
  import opened Types
  import opened World
  import opened InstanceContract
  import I = Instance

  /** A call returns its logs or its error. */
  type Answer = Result<seq<Event>>

  class VerifierRegistry {
    var authority: Address
    var verifierCount: nat
    var isVerifier: set<Address>

    /** Storage as the specification sees it. */
    ghost function View(): Registry
      reads this
    {
      Registry(authority, verifierCount, isVerifier)
    }

    constructor (authority: Address)
      ensures View() == Registry(authority, 0, {})
    {
      this.authority, verifierCount, isVerifier := authority, 0, {};
    }

    method TransferAuthority(caller: Address, newAuthority: Address) returns (answer: Answer)
      modifies this
      ensures Did(answer, old(View()), View(), TransferAuthorityOf(old(View()), caller, newAuthority))
    {
      if caller != authority { return Revert(NotAuthority); }
      if newAuthority == Zero { return Revert(ZeroAddress); }
      var previous := authority;
      authority := newAuthority;
      answer := Ok([AuthorityTransferred(previous, newAuthority)]);
    }

    method AddVerifier(caller: Address, verifier: Address) returns (answer: Answer)
      modifies this
      ensures Did(answer, old(View()), View(), AddVerifierTo(old(View()), caller, verifier))
    {
      if caller != authority { return Revert(NotAuthority); }
      if verifier == Zero { return Revert(ZeroAddress); }
      if verifier in isVerifier { return Revert(AlreadyVerifier); }
      var saved := isVerifier;
      isVerifier := isVerifier + {verifier};
      if verifierCount >= MAX_UINT256 {
        isVerifier := saved;
        return Revert(Panic);
      }
      verifierCount := verifierCount + 1;
      answer := Ok([VerifierAdded(verifier)]);
    }

    method RemoveVerifier(caller: Address, verifier: Address) returns (answer: Answer)
      modifies this
      ensures Did(answer, old(View()), View(), RemoveVerifierFrom(old(View()), caller, verifier))
    {
      if caller != authority { return Revert(NotAuthority); }
      if verifier !in isVerifier { return Revert(NotVerifier); }
      var saved := isVerifier;
      isVerifier := isVerifier - {verifier};
      if verifierCount == 0 {
        isVerifier := saved;
        return Revert(Panic);
      }
      verifierCount := verifierCount - 1;
      answer := Ok([VerifierRemoved(verifier)]);
    }

    function Quorum(): (quorum: nat)
      reads this
      ensures quorum == View().Quorum()
    {
      verifierCount / 2 + 1
    }
  }

  /** What code is at the addresses the factory deployed to. */
  ghost function Views(code: map<Address, MasjidInstance>): map<Address, I.State>
    reads code.Values
  {
    map a | a in code :: code[a].View()
  }

  lemma ViewsWith(code: map<Address, MasjidInstance>, a: Address, c: MasjidInstance)
    ensures Views(code[a := c]) == Views(code)[a := c.View()]
  {
  }

  class MasjidFactory {
    var masjidById: map<MasjidId, Address>
    var deployments: nat
    var code: map<Address, MasjidInstance>

    constructor ()
      ensures masjidById == map[] && deployments == 0 && code == map[]
    {
      masjidById, deployments, code := map[], 0, map[];
    }

    /** Each contract sits at its own address, so different addresses hold different contracts. */
    ghost predicate Valid()
      reads this, code.Values
    {
      forall a :: a in code ==> code[a].self == a
    }

    /** The world `w` with this factory's storage and the instances it deployed. */
    ghost function In(w: State): State
      reads this, code.Values
    {
      w.(factory := masjidById, deployments := deployments, instances := Views(code))
    }

    /** `new MasjidInstance`: its revert is the factory's, and then nothing is written. */
    method Instantiate(now: Timestamp, id: MasjidId, masjidAdmin: Address, stablecoin: Address, board: seq<Address>,
                       threshold: nat, ghost w: State)
      returns (answer: Answer, instance: Address)
      requires Valid()
      modifies this
      ensures Valid()
      ensures Did(answer, old(In(w)), In(w),
                  World.Instantiate(old(In(w)), now, id, masjidAdmin, stablecoin, board, threshold))
      ensures answer.Revert? ==> code == old(code)
      ensures answer.Ok? ==> In(w).FactoryEntry(id) == instance && instance in code
                             && fresh(code[instance]) && code == old(code)[instance := code[instance]]
    {
      hide I.Construct, I.BoardDefect, Views, InstanceLogs;
      instance := Deployed(deployments);
      var made, logs := MasjidInstance.Create(instance, Protocol, id, masjidAdmin, stablecoin, board, threshold, now);
      if made.Revert? { return Revert(made.error), Zero; }
      ghost var before := code;
      code := code[instance := made.value];
      masjidById := masjidById[id := instance];
      deployments := deployments + 1;
      answer := Ok(InstanceLogs(instance, logs) + [MasjidDeployed(id, instance)]);
      assert Views(before) == old(Views(code));
      ViewsWith(before, instance, made.value);
    }

    method DeployMasjid(caller: Address, now: Timestamp, id: MasjidId, masjidName: string, masjidAdmin: Address,
                        stablecoin: Address, board: seq<Address>, threshold: nat, ghost w: State)
      returns (answer: Answer, instance: Address)
      requires Valid()
      modifies this
      ensures Valid()
      ensures Did(answer, old(In(w)), In(w),
                  World.DeployMasjid(old(In(w)), caller, now, id, masjidName, masjidAdmin, stablecoin, board,
                                     threshold))
      ensures answer.Revert? ==> code == old(code)
      ensures answer.Ok? ==> In(w).FactoryEntry(id) == instance && instance in code
                             && fresh(code[instance]) && code == old(code)[instance := code[instance]]
    {
      hide World.Instantiate, Views;
      ghost var was := In(w);
      if caller != Protocol { return Revert(OnlyProtocol), Zero; }
      if |masjidName| == 0 { return Revert(EmptyName), Zero; }
      if masjidAdmin == Zero || stablecoin == Zero { return Revert(ZeroAddress), Zero; }
      assert was.FactoryEntry(id) == if id in masjidById then masjidById[id] else Zero;
      if id in masjidById && masjidById[id] != Zero { return Revert(AlreadyDeployed), Zero; }
      answer, instance := Instantiate(now, id, masjidAdmin, stablecoin, board, threshold, w);
    }
  }

  class MasjidProtocol {
    const admin: Address
    const registry: VerifierRegistry
    const factory: MasjidFactory

    var masjidNonce: nat
    var masjidById: map<MasjidId, Masjid>
    var masjidIdByNameHash: map<NameHash, MasjidId>
    var masjidBoardMembers: map<MasjidId, seq<Address>>
    var masjidAttesters: map<MasjidId, seq<Address>>
    var hasAttested: map<MasjidId, set<Address>>

    /** The storage of the protocol, its registry, its factory and every deployed instance. */
    ghost function View(): State
      reads this, registry, factory, factory.code.Values
    {
      State(admin, registry.View(), masjidNonce, masjidById, masjidIdByNameHash, masjidBoardMembers, masjidAttesters,
            hasAttested, factory.masjidById, factory.deployments, Views(factory.code))
    }

    constructor (admin: Address, registry: VerifierRegistry)
      requires registry.View().authority != Zero && registry.View() == Registry(registry.authority, 0, {})
      ensures fresh(factory) && factory.Valid() && this.registry == registry && this.admin == admin
      ensures Initial(View())
    {
      this.admin, this.registry := admin, registry;
      factory := new MasjidFactory();
      masjidNonce := 0;
      masjidById, masjidIdByNameHash, masjidBoardMembers := map[], map[], map[];
      masjidAttesters, hasAttested := map[], map[];
    }

    function Get(id: MasjidId): (m: Masjid)
      reads this, registry, factory, factory.code.Values
      ensures m == View().Get(id)
    {
      if id in masjidById then masjidById[id] else NO_MASJID
    }

    method Register(caller: Address, now: Timestamp, masjidName: string, metadataUri: string, stablecoin: Address,
                    boardMembers: seq<Address>)
      returns (answer: Answer)
      modifies this
      ensures Did(answer, old(View()), View(),
                  World.Register(old(View()), caller, now, masjidName, metadataUri, stablecoin, boardMembers))
    {
      hide Views;
      if |masjidName| == 0 { return Revert(EmptyName); }
      if stablecoin == Zero { return Revert(ZeroAddress); }
      if |boardMembers| == 0 { return Revert(ZeroAddress); }
      var nameHash := Keccak(masjidName);
      if nameHash in masjidIdByNameHash {
        var existing := masjidIdByNameHash[nameHash];
        if Get(existing).status != Rejected { return Revert(AlreadyRegisteredName); }
      }
      answer := Admit(caller, now, masjidName, metadataUri, stablecoin, boardMembers);
    }

    /** Nothing stands in the way of the name: the masjid is entered under a new id. */
    method Admit(caller: Address, now: Timestamp, masjidName: string, metadataUri: string, stablecoin: Address,
                 boardMembers: seq<Address>)
      returns (answer: Answer)
      requires |masjidName| > 0 && stablecoin != Zero && |boardMembers| > 0
      requires var nameHash := Keccak(masjidName);
               nameHash in masjidIdByNameHash ==> Get(masjidIdByNameHash[nameHash]).status == Rejected
      modifies this
      ensures Did(answer, old(View()), View(),
                  World.Register(old(View()), caller, now, masjidName, metadataUri, stablecoin, boardMembers))
    {
      hide Views, Entered;
      if masjidNonce >= MAX_UINT256 { return Revert(Panic); }
      masjidNonce := masjidNonce + 1;
      var nameHash := Keccak(masjidName);
      var id := IdHash(masjidNonce, caller, nameHash);
      var m := FillIn(Get(id), caller, now, masjidName, metadataUri, stablecoin, boardMembers);
      Store(id, m, boardMembers);
      answer := Ok([MasjidRegistered(id, nameHash, caller, masjidName, metadataUri, stablecoin, boardMembers)]);
    }

    method Store(id: MasjidId, m: Masjid, boardMembers: seq<Address>)
      modifies this`masjidById, this`masjidBoardMembers, this`masjidIdByNameHash
      ensures View() == old(View()).WithMasjid(id, m).(
                          boards := old(masjidBoardMembers)[id := boardMembers],
                          masjidIdByNameHash := old(masjidIdByNameHash)[id.nameHash := id])
    {
      hide Views;
      masjidById := masjidById[id := m];
      masjidBoardMembers := masjidBoardMembers[id := boardMembers];
      masjidIdByNameHash := masjidIdByNameHash[id.nameHash := id];
    }

    static method FillIn(masjid: Masjid, caller: Address, now: Timestamp, masjidName: string, metadataUri: string,
                         stablecoin: Address, boardMembers: seq<Address>)
      returns (m: Masjid)
      ensures m == Entered(masjid, caller, now, masjidName, metadataUri, stablecoin, boardMembers)
    {
      m := masjid;
      m := m.(proposer := caller, masjidAdmin := caller, stablecoin := stablecoin, nameHash := Keccak(masjidName));
      m := m.(cashOutThreshold := |boardMembers| / 2 + 1, status := Pending, createdAt := now, updatedAt := now);
      m := m.(masjidName := masjidName, metadataUri := metadataUri);
    }

    /** The external call that mirrors a status: an address without code reverts it. */
    method CallSetStatus(now: Timestamp, a: Address, status: I.Verification) returns (answer: Answer)
      requires factory.Valid()
      modifies if a in factory.code then {factory.code[a]} else {}
      ensures Did(answer, old(View()), View(), SetInstanceStatus(old(View()), now, a, status))
    {
      hide I.SetStatus, InstanceLogs;
      if a !in factory.code { return Revert(Panic); }
      var r := factory.code[a].SetStatus(Protocol, now, status);
      OneInstanceChanged(old(Views(factory.code)), factory.code, a);
      answer := if r.Ok? then Ok(InstanceLogs(a, r.value)) else Revert(r.error);
    }

    method CallSetAdmin(a: Address, newAdmin: Address) returns (answer: Answer)
      requires factory.Valid()
      modifies if a in factory.code then {factory.code[a]} else {}
      ensures Did(answer, old(View()), View(), SetInstanceAdmin(old(View()), a, newAdmin))
    {
      hide I.SetAdmin, InstanceLogs;
      if a !in factory.code { return Revert(Panic); }
      var r := factory.code[a].SetAdmin(Protocol, newAdmin);
      OneInstanceChanged(old(Views(factory.code)), factory.code, a);
      answer := if r.Ok? then Ok(InstanceLogs(a, r.value)) else Revert(r.error);
    }

    /** Deploys the instance, marks the masjid verified and mirrors that; a failed deployment writes nothing. */
    method Verified(now: Timestamp, id: MasjidId) returns (answer: Answer)
      requires factory.Valid()
      modifies this, factory
      ensures factory.Valid()
      ensures answer.Revert? ==> factory.code == old(factory.code)
      ensures Did(answer, old(View()), View(), World.Verify(old(View()), now, id))
    {
      hide World.DeployMasjid, SetInstanceStatus, Views;
      var m := Get(id);
      var board := if id in masjidBoardMembers then masjidBoardMembers[id] else [];
      var attesters := if id in masjidAttesters then masjidAttesters[id] else [];
      var deployed, instance :=
        factory.DeployMasjid(Protocol, now, id, m.masjidName, m.proposer, m.stablecoin, board, m.cashOutThreshold,
                             View());
      if deployed.Revert? { return Revert(deployed.error); }
      masjidById := masjidById[id := m.(instance := instance, status := World.Verified, updatedAt := now)];
      var mirrored := CallSetStatus(now, instance, I.Verified);
      DeployedObeys(old(View()), now, id, m, board, instance, Get(id));
      var last := MasjidVerified(id, instance, attesters, m.attestYes, m.attestNo);
      answer := Ok(deployed.value + mirrored.value + [last]);
    }

    /** Notes that the caller has voted. */
    method Sign(caller: Address, id: MasjidId)
      modifies this`hasAttested, this`masjidAttesters
      ensures View() == old(View()).(hasAttested := old(hasAttested)[id := old(View()).HasAttested(id) + {caller}],
                                     attesters := old(masjidAttesters)[id := old(View()).Attesters(id) + [caller]])
    {
      hide Views;
      var voters := if id in hasAttested then hasAttested[id] else {};
      hasAttested := hasAttested[id := voters + {caller}];
      var attesters := if id in masjidAttesters then masjidAttesters[id] else [];
      masjidAttesters := masjidAttesters[id := attesters + [caller]];
    }

    /** Writes the vote; an overflowing tally takes it back. */
    method RecordVote(caller: Address, now: Timestamp, id: MasjidId, support: bool) returns (ok: bool)
      modifies this`hasAttested, this`masjidAttesters, this`masjidById
      ensures ok <==> (if support then old(Get(id)).attestYes else old(Get(id)).attestNo) < MAX_UINT32
      ensures View() == if ok then World.RecordVote(old(View()), caller, now, id, support) else old(View())
    {
      hide Views, Counted;
      var savedVoters, savedAttesters := hasAttested, masjidAttesters;
      Sign(caller, id);
      var m := Get(id);
      if (if support then m.attestYes else m.attestNo) >= MAX_UINT32 {
        hasAttested, masjidAttesters := savedVoters, savedAttesters;
        return false;
      }
      m := CountVote(m, support, now);
      masjidById := masjidById[id := m];
      ok := true;
    }

    static method CountVote(masjid: Masjid, support: bool, now: Timestamp) returns (m: Masjid)
      ensures m == Counted(masjid, support, now)
    {
      m := masjid;
      if support { m := m.(attestYes := m.attestYes + 1); } else { m := m.(attestNo := m.attestNo + 1); }
      m := m.(updatedAt := now);
    }

    method Attest(caller: Address, now: Timestamp, id: MasjidId, support: bool) returns (answer: Answer)
      requires factory.Valid()
      modifies this, factory
      ensures factory.Valid()
      ensures answer.Revert? ==> factory.code == old(factory.code)
      ensures Did(answer, old(View()), View(), World.Attest(old(View()), caller, now, id, support))
    {
      hide World.Decide, World.RecordVote, Views;
      if caller !in registry.isVerifier { return Revert(NotAuthorizedVerifier); }
      if Get(id).createdAt == 0 { return Revert(MasjidNotFound); }
      if Get(id).status != Pending { return Revert(InvalidStatus); }
      if HasAttested(id, caller) { return Revert(AlreadyAttested); }
      answer := Vote(caller, now, id, support);
    }

    /** The vote is written and logged before the quorum is looked at; if the deployment it decides then
        reverts, the vote is taken back with it. */
    method Vote(caller: Address, now: Timestamp, id: MasjidId, support: bool) returns (answer: Answer)
      requires factory.Valid() && caller in registry.isVerifier && !HasAttested(id, caller)
      requires Get(id).createdAt != 0 && Get(id).status == Pending
      modifies this, factory
      ensures factory.Valid()
      ensures answer.Revert? ==> factory.code == old(factory.code)
      ensures Did(answer, old(View()), View(), World.Attest(old(View()), caller, now, id, support))
    {
      hide World.Decide, World.RecordVote, Views;
      var savedVoters, savedAttesters, savedMasjids := hasAttested, masjidAttesters, masjidById;
      var ok := RecordVote(caller, now, id, support);
      if !ok { return Revert(Panic); }
      var m := Get(id);
      answer := Decide(registry.Quorum(), now, id, MasjidAttested(id, caller, support, m.attestYes, m.attestNo));
      if answer.Revert? { hasAttested, masjidAttesters, masjidById := savedVoters, savedAttesters, savedMasjids; }
    }

    function HasAttested(id: MasjidId, account: Address): bool
      reads this
    {
      id in hasAttested && account in hasAttested[id]
    }

    method Decide(quorum: nat, now: Timestamp, id: MasjidId, log: Event) returns (answer: Answer)
      requires factory.Valid()
      modifies this, factory
      ensures factory.Valid()
      ensures answer.Revert? ==> factory.code == old(factory.code)
      ensures Did(answer, old(View()), View(), World.Decide(old(View()), quorum, now, id, log))
    {
      hide World.Verify, Views;
      var m := Get(id);
      if m.attestYes >= quorum {
        answer := Verified(now, id);
        if answer.Ok? { answer := Ok([log] + answer.value); }
      } else if m.attestNo >= quorum {
        masjidById := masjidById[id := m.(status := Rejected, updatedAt := now)];
        var attesters := if id in masjidAttesters then masjidAttesters[id] else [];
        answer := Ok([log, MasjidRejected(id, attesters, m.attestYes, m.attestNo)]);
      } else {
        answer := Ok([log]);
      }
    }

    method TransferAdmin(caller: Address, now: Timestamp, id: MasjidId, newAdmin: Address) returns (answer: Answer)
      requires factory.Valid()
      modifies this, factory.code.Values
      ensures Did(answer, old(View()), View(), World.TransferAdmin(old(View()), caller, now, id, newAdmin))
    {
      hide SetInstanceAdmin, Views;
      var m := Get(id);
      if m.masjidAdmin != caller { return Revert(NotMasjidAdmin); }
      if m.instance == Zero { return Revert(MasjidNotFound); }
      if newAdmin == Zero { return Revert(ZeroAddress); }
      var saved := masjidById;
      masjidById := masjidById[id := m.(masjidAdmin := newAdmin, updatedAt := now)];
      var told := CallSetAdmin(m.instance, newAdmin);
      if told.Revert? {
        masjidById := saved;
        return told;
      }
      answer := Ok(told.value + [MasjidAdminTransferred(id, m.masjidAdmin, newAdmin)]);
    }

    /** Writes the status on both sides, or on neither. */
    method SetStatus(now: Timestamp, id: MasjidId, status: Status, mirrored: I.Verification) returns (answer: Answer)
      requires factory.Valid()
      modifies this, factory.code.Values
      ensures Did(answer, old(View()), View(), World.SetStatus(old(View()), now, id, status, mirrored))
    {
      hide SetInstanceStatus, Views;
      var m := Get(id);
      var saved := masjidById;
      masjidById := masjidById[id := m.(status := status, updatedAt := now)];
      var told := CallSetStatus(now, m.instance, mirrored);
      if told.Revert? {
        masjidById := saved;
        return told;
      }
      answer := Ok(told.value + [MasjidStatusUpdated(id, m.status, status)]);
    }

    method Flag(caller: Address, now: Timestamp, id: MasjidId) returns (answer: Answer)
      requires factory.Valid()
      modifies this, factory.code.Values
      ensures Did(answer, old(View()), View(), World.Flag(old(View()), caller, now, id))
    {
      hide World.SetStatus, Views;
      if caller != admin { return Revert(NotAdmin); }
      if Get(id).instance == Zero { return Revert(MasjidNotFound); }
      if Get(id).status != World.Verified { return Revert(InvalidStatus); }
      answer := SetStatus(now, id, Flagged, I.Flagged);
    }

    method Unflag(caller: Address, now: Timestamp, id: MasjidId) returns (answer: Answer)
      requires factory.Valid()
      modifies this, factory.code.Values
      ensures Did(answer, old(View()), View(), World.Unflag(old(View()), caller, now, id))
    {
      hide World.SetStatus, Views;
      if caller != admin { return Revert(NotAdmin); }
      if Get(id).instance == Zero { return Revert(MasjidNotFound); }
      if Get(id).status != Flagged { return Revert(InvalidStatus); }
      answer := SetStatus(now, id, World.Verified, I.Verified);
    }

    method Revoke(caller: Address, now: Timestamp, id: MasjidId) returns (answer: Answer)
      requires factory.Valid()
      modifies this, factory.code.Values
      ensures Did(answer, old(View()), View(), World.Revoke(old(View()), caller, now, id))
    {
      hide World.SetStatus, Views;
      if caller != admin { return Revert(NotAdmin); }
      if Get(id).instance == Zero { return Revert(MasjidNotFound); }
      if Get(id).status != World.Verified && Get(id).status != Flagged { return Revert(InvalidStatus); }
      answer := SetStatus(now, id, Revoked, I.Revoked);
    }
  }

  /** A new instance lets the protocol set its status, so nothing reverts once it is deployed. */
  lemma DeployedObeys(w: State, now: Timestamp, id: MasjidId, m: Masjid, board: seq<Address>, a: Address, m': Masjid)
    requires var spec := World.DeployMasjid(w, Protocol, now, id, m.masjidName, m.proposer, m.stablecoin, board,
                                            m.cashOutThreshold);
             spec.Ok? && a == spec.value.state.FactoryEntry(id)
    ensures var spec := World.DeployMasjid(w, Protocol, now, id, m.masjidName, m.proposer, m.stablecoin, board,
                                           m.cashOutThreshold);
            SetInstanceStatus(spec.value.state.WithMasjid(id, m'), now, a, I.Verified).Ok?
  {
    hide I.BoardLogs, InstanceLogs, I.BoardDefect, I.Construct;
    NewInstanceObeys(id, m.proposer, m.stablecoin, board, m.cashOutThreshold, now);
  }

  lemma NewInstanceObeys(id: MasjidId, admin: Address, coin: Address, board: seq<Address>, threshold: nat,
                         now: Timestamp)
    requires I.Construct(Protocol, id, admin, coin, board, threshold, now).Ok?
    ensures I.Construct(Protocol, id, admin, coin, board, threshold, now).value.state.roles.protocol == {Protocol}
  {
  }

  lemma OneInstanceChanged(was: map<Address, I.State>, code: map<Address, MasjidInstance>, a: Address)
    requires a in code && was.Keys == code.Keys
    requires forall b :: b in code && b != a ==> code[b].View() == was[b]
    ensures Views(code) == was[a := code[a].View()]
    ensures code[a].View() == was[a] ==> Views(code) == was
  {
  }
}
