/** What the protocol, the factory, the registry and the instances keep in agreement along every run. */
module WorldSafety {
  import opened Types
  import opened World
  import I = Instance
  import Safety = InstanceSafety

  // ---- The invariant ------------------------------------------------------------------------

  /** The registry's counter is the number of its verifiers. */
  ghost predicate RegistryInv(r: Registry) {
    && r.verifierCount == |r.verifiers|
    && Zero !in r.verifiers
  }

  /** A registration keeps the terms it was made with. */
  ghost predicate TermsInv(w: State, id: MasjidId) {
    var m := w.Get(id);
    && m.status != NoStatus && 0 < m.createdAt
    && m.proposer == id.sender && m.proposer.Account? && m.masjidAdmin != Zero && m.stablecoin != Zero
    && m.nameHash == id.nameHash == Keccak(m.masjidName) && |m.masjidName| > 0
    && 1 <= id.nonce <= w.masjidNonce
    && |w.Board(id)| > 0 && m.cashOutThreshold == |w.Board(id)| / 2 + 1
  }

  /** The tallies, the attester list and the attested set count the same votes. */
  ghost predicate VotesInv(w: State, id: MasjidId) {
    var m := w.Get(id);
    && m.attestYes + m.attestNo == |w.Attesters(id)|
    && NoDuplicates(w.Attesters(id))
    && ToSet(w.Attesters(id)) == w.HasAttested(id)
    && Zero !in w.HasAttested(id)
  }

  predicate HasInstance(s: Status) { s == Verified || s == Flagged || s == Revoked }

  function Mirrored(s: Status): I.Verification {
    match s
    case Verified => I.Verified
    case Flagged => I.Flagged
    case Revoked => I.Revoked
    case _ => I.Unverified
  }

  /** The instance deployed for `id` says what the protocol says. */
  ghost predicate InstanceAgrees(w: State, id: MasjidId, s: I.State) {
    var m := w.Get(id);
    && s.id == id
    && s.status == Mirrored(m.status)
    && s.masjidAdmin == m.masjidAdmin
    && s.stablecoin == m.stablecoin
    && s.roles.protocol == {Protocol} && s.roles.root == {}
    && s.roles.admin <= {m.masjidAdmin}
  }

  /** Protocol, factory and instance agree on `id`, and before a deployment the admin is the proposer. */
  ghost predicate MirrorInv(w: State, id: MasjidId) {
    var m := w.Get(id);
    && (m.instance != Zero <==> HasInstance(m.status))
    && w.FactoryEntry(id) == m.instance
    && (m.instance == Zero ==> m.masjidAdmin == m.proposer)
    && (m.instance != Zero ==>
          && m.instance in w.instances
          && InstanceAgrees(w, id, w.instances[m.instance])
          && I.WellFormedBoard(w.Board(id)))
  }

  ghost predicate MasjidInv(w: State, id: MasjidId) {
    TermsInv(w, id) && VotesInv(w, id) && MirrorInv(w, id)
  }

  /** Every deployed instance is some masjid's instance and keeps its own invariant. */
  ghost predicate DeployedInv(w: State, a: Address)
    requires a in w.instances
  {
    && a.Deployed? && a.index < w.deployments
    && w.instances[a].id in w.masjidById
    && w.Get(w.instances[a].id).instance == a
    && Safety.Inv(w.instances[a])
  }

  /** The name index holds the newest registration of each name; the older ones are all rejected. */
  ghost predicate NameInv(w: State, id: MasjidId) {
    && id.nameHash in w.masjidIdByNameHash
    && var newest := w.masjidIdByNameHash[id.nameHash];
    && newest in w.masjidById && newest.nameHash == id.nameHash
    && (id != newest ==> id.nonce < newest.nonce && w.Get(id).status == Rejected)
  }

  /** Nothing is recorded about an id that was never registered. */
  ghost predicate Blank(w: State, id: MasjidId) {
    w.Attesters(id) == [] && w.HasAttested(id) == {} && w.FactoryEntry(id) == Zero
  }

  ghost predicate MasjidsInv(w: State) { forall id :: id in w.masjidById ==> MasjidInv(w, id) }

  ghost predicate NamesInv(w: State) {
    && (forall id :: id in w.masjidById ==> NameInv(w, id))
    && (forall h :: h in w.masjidIdByNameHash ==>
          w.masjidIdByNameHash[h] in w.masjidById && w.masjidIdByNameHash[h].nameHash == h)
  }

  ghost predicate BlanksInv(w: State) { forall id :: id !in w.masjidById ==> Blank(w, id) }

  ghost predicate DeploymentsInv(w: State) { forall a :: a in w.instances ==> DeployedInv(w, a) }

  ghost predicate Inv(w: State) {
    RegistryInv(w.registry) && MasjidsInv(w) && NamesInv(w) && BlanksInv(w) && DeploymentsInv(w)
  }

  lemma InitialInv(w: State)
    requires Initial(w)
    ensures Inv(w)
  {
  }

  // ---- Frames -------------------------------------------------------------------------------

  /** Everything about masjid `id`, including its instance, is the same in `w` and `w'`. */
  ghost predicate Untouched(w: State, w': State, id: MasjidId) {
    && (id in w'.masjidById <==> id in w.masjidById)
    && w'.Get(id) == w.Get(id)
    && w'.Board(id) == w.Board(id)
    && w'.Attesters(id) == w.Attesters(id)
    && w'.HasAttested(id) == w.HasAttested(id)
    && w'.FactoryEntry(id) == w.FactoryEntry(id)
    && (w.Get(id).instance in w.instances ==>
          && w.Get(id).instance in w'.instances
          && w'.instances[w.Get(id).instance] == w.instances[w.Get(id).instance])
  }

  lemma UntouchedInv(w: State, w': State, id: MasjidId)
    requires Untouched(w, w', id) && w.masjidNonce <= w'.masjidNonce
    requires MasjidInv(w, id)
    ensures MasjidInv(w', id)
  {
  }

  /** `w'` differs from `w` at most in masjid `id`, its instances and the counters. */
  ghost predicate OnlyMasjid(w: State, w': State, id: MasjidId) {
    && w.masjidNonce <= w'.masjidNonce && w.deployments <= w'.deployments
    && id in w'.masjidById
    && (forall k :: k != id ==> Untouched(w, w', k))
    && (forall a | a in w'.instances && w'.instances[a].id != id ::
          a in w.instances && w'.instances[a] == w.instances[a])
  }

  /** The instances recorded for `id` keep what the invariant says about them. */
  ghost predicate OwnInstancesInv(w: State, id: MasjidId) {
    forall a :: a in w.instances && w.instances[a].id == id ==> DeployedInv(w, a)
  }

  lemma OnlyMasjidKeepsMasjids(w: State, w': State, id: MasjidId)
    requires MasjidsInv(w) && OnlyMasjid(w, w', id) && MasjidInv(w', id)
    ensures MasjidsInv(w')
  {
    forall k | k in w'.masjidById ensures MasjidInv(w', k) {
      if k != id {
        assert Untouched(w, w', k);
        assert MasjidInv(w, k);
        UntouchedInv(w, w', k);
      }
    }
  }

  lemma OnlyMasjidKeepsBlanks(w: State, w': State, id: MasjidId)
    requires BlanksInv(w) && OnlyMasjid(w, w', id)
    ensures BlanksInv(w')
  {
    forall k | k !in w'.masjidById ensures Blank(w', k) {
      assert Untouched(w, w', k);
      assert Blank(w, k);
    }
  }

  lemma OnlyMasjidKeepsDeployments(w: State, w': State, id: MasjidId)
    requires DeploymentsInv(w) && OnlyMasjid(w, w', id) && OwnInstancesInv(w', id)
    ensures DeploymentsInv(w')
  {
    forall a | a in w'.instances ensures DeployedInv(w', a) {
      if w'.instances[a].id != id {
        assert DeployedInv(w, a);
        assert Untouched(w, w', w.instances[a].id);
      }
    }
  }

  lemma OnlyMasjidKeepsNames(w: State, w': State, id: MasjidId)
    requires NamesInv(w) && OnlyMasjid(w, w', id) && id in w.masjidById
    requires w'.masjidIdByNameHash == w.masjidIdByNameHash
    requires w.Get(id).status == Rejected ==> w'.Get(id).status == Rejected
    ensures NamesInv(w')
  {
    forall k ensures k in w'.masjidById <==> k in w.masjidById {
      if k != id { assert Untouched(w, w', k); }
    }
    forall k | k in w'.masjidById ensures NameInv(w', k) {
      assert NameInv(w, k);
      if k != id { assert Untouched(w, w', k); }
    }
  }

  /** A change confined to a registered masjid that does not bring it back from rejection keeps the
      invariant if it keeps what the invariant says about that masjid and its instances. */
  lemma OnlyMasjidKeepsInv(w: State, w': State, id: MasjidId)
    requires Inv(w) && OnlyMasjid(w, w', id) && id in w.masjidById
    requires w'.registry == w.registry && w'.masjidIdByNameHash == w.masjidIdByNameHash
    requires w.Get(id).status == Rejected ==> w'.Get(id).status == Rejected
    requires MasjidInv(w', id) && OwnInstancesInv(w', id)
    ensures Inv(w')
  {
    hide MasjidsInv, NamesInv, BlanksInv, DeploymentsInv, OnlyMasjid, MasjidInv, OwnInstancesInv;
    OnlyMasjidKeepsMasjids(w, w', id);
    OnlyMasjidKeepsBlanks(w, w', id);
    OnlyMasjidKeepsDeployments(w, w', id);
    OnlyMasjidKeepsNames(w, w', id);
  }

  // ---- Preservation, call by call -----------------------------------------------------------

  lemma RegistryCallKeepsInv(w: State, registry: Registry)
    requires Inv(w) && RegistryInv(registry)
    ensures Inv(w.(registry := registry))
  {
    hide RegistryInv, MasjidInv, NameInv, Blank, Safety.Inv;
    var w' := w.(registry := registry);
    forall k | k in w'.masjidById ensures MasjidInv(w', k) && NameInv(w', k) {
      assert MasjidInv(w, k) && NameInv(w, k);
      OtherRegistry(w, registry, k);
    }
    forall k | k !in w'.masjidById ensures Blank(w', k) {
      assert Blank(w, k);
      OtherRegistry(w, registry, k);
    }
    forall a | a in w'.instances ensures DeployedInv(w', a) { assert DeployedInv(w, a); }
  }

  lemma OtherRegistry(w: State, registry: Registry, k: MasjidId)
    ensures var w' := w.(registry := registry);
            && (MasjidInv(w, k) ==> MasjidInv(w', k)) && (NameInv(w, k) ==> NameInv(w', k))
            && (Blank(w, k) ==> Blank(w', k))
  {
  }

  lemma RegisterKeepsNames(w: State, caller: Address, now: Timestamp, name: string, uri: string,
                           stablecoin: Address, board: seq<Address>)
    requires NamesInv(w) && MasjidsInv(w) && caller.Account?
    requires Register(w, caller, now, name, uri, stablecoin, board).Ok?
    ensures NamesInv(Register(w, caller, now, name, uri, stablecoin, board).value.state)
  {
    hide MasjidInv, NameInv;
    var w' := Register(w, caller, now, name, uri, stablecoin, board).value.state;
    var id := IdHash(w.masjidNonce + 1, caller, Keccak(name));
    forall k | k in w'.masjidById ensures NameInv(w', k) {
      if k in w.masjidById {
        assert NameInv(w, k);
        assert MasjidInv(w, k);
      }
      RegisterKeepsName(w, w', id, w'.masjidById[id], k);
    }
  }

  lemma RegisterKeepsName(w: State, w': State, id: MasjidId, m: Masjid, k: MasjidId)
    requires w'.masjidById == w.masjidById[id := m] && k in w'.masjidById
    requires w'.masjidIdByNameHash == w.masjidIdByNameHash[id.nameHash := id] && id.nonce == w.masjidNonce + 1
    requires id.nameHash in w.masjidIdByNameHash ==> w.Get(w.masjidIdByNameHash[id.nameHash]).status == Rejected
    requires k in w.masjidById ==> NameInv(w, k) && MasjidInv(w, k)
    ensures NameInv(w', k)
  {
    hide VotesInv, MirrorInv;
  }

  lemma RegisterIsFresh(w: State, caller: Address, name: string)
    requires MasjidsInv(w) && BlanksInv(w)
    ensures var id := IdHash(w.masjidNonce + 1, caller, Keccak(name)); id !in w.masjidById && Blank(w, id)
  {
  }

  lemma RegisterFrame(w: State, caller: Address, now: Timestamp, name: string, uri: string,
                      stablecoin: Address, board: seq<Address>)
    requires Register(w, caller, now, name, uri, stablecoin, board).Ok?
    ensures var w' := Register(w, caller, now, name, uri, stablecoin, board).value.state;
            && w'.instances == w.instances && w'.registry == w.registry
            && OnlyMasjid(w, w', IdHash(w.masjidNonce + 1, caller, Keccak(name)))
  {
  }

  /** A registration starts out with its terms, no votes, no instance and its proposer as admin. */
  lemma RegisterStarts(w: State, caller: Address, now: Timestamp, name: string, uri: string,
                       stablecoin: Address, board: seq<Address>)
    requires caller.Account?
    requires Register(w, caller, now, name, uri, stablecoin, board).Ok?
    requires var id := IdHash(w.masjidNonce + 1, caller, Keccak(name)); id !in w.masjidById && Blank(w, id)
    ensures var w' := Register(w, caller, now, name, uri, stablecoin, board).value.state;
            var id := IdHash(w.masjidNonce + 1, caller, Keccak(name));
            id in w'.masjidById && MasjidInv(w', id)
  {
    var w' := Register(w, caller, now, name, uri, stablecoin, board).value.state;
    var id := IdHash(w.masjidNonce + 1, caller, Keccak(name));
    assert TermsInv(w', id);
    assert w'.Attesters(id) == [] && w'.HasAttested(id) == {};
    assert VotesInv(w', id);
    assert MirrorInv(w', id);
  }

  lemma RegisterKeepsInv(w: State, caller: Address, now: Timestamp, name: string, uri: string,
                         stablecoin: Address, board: seq<Address>)
    requires Inv(w) && caller.Account?
    requires Register(w, caller, now, name, uri, stablecoin, board).Ok?
    ensures Inv(Register(w, caller, now, name, uri, stablecoin, board).value.state)
  {
    var w' := Register(w, caller, now, name, uri, stablecoin, board).value.state;
    var id := IdHash(w.masjidNonce + 1, caller, Keccak(name));
    RegisterIsFresh(w, caller, name);
    RegisterStarts(w, caller, now, name, uri, stablecoin, board);
    forall a | a in w.instances ensures w.instances[a].id != id { assert DeployedInv(w, a); }
    RegisterFrame(w, caller, now, name, uri, stablecoin, board);
    RegisterKeepsNames(w, caller, now, name, uri, stablecoin, board);
    hide Register, OnlyMasjid, MasjidInv, NamesInv, BlanksInv;
    OnlyMasjidKeepsMasjids(w, w', id);
    OnlyMasjidKeepsBlanks(w, w', id);
    OnlyMasjidKeepsDeployments(w, w', id);
  }

  /** A write to the protocol's own storage of masjid `id` that leaves the instances alone. */
  ghost predicate ProtocolWrite(w: State, w': State, id: MasjidId, m: Masjid) {
    && id in w.masjidById && m.instance == w.Get(id).instance
    && w' == w.(masjidById := w.masjidById[id := m], attesters := w'.attesters, hasAttested := w'.hasAttested)
    && (forall k :: k != id ==> w'.Attesters(k) == w.Attesters(k) && w'.HasAttested(k) == w.HasAttested(k))
  }

  lemma ProtocolWriteFrame(w: State, w': State, id: MasjidId, m: Masjid)
    requires ProtocolWrite(w, w', id, m) && DeploymentsInv(w)
    ensures OnlyMasjid(w, w', id) && OwnInstancesInv(w', id)
  {
  }

  lemma ProtocolWriteKeepsInv(w: State, w': State, id: MasjidId, m: Masjid)
    requires Inv(w) && ProtocolWrite(w, w', id, m) && MasjidInv(w', id)
    requires w.Get(id).status == Rejected ==> m.status == Rejected
    ensures Inv(w')
  {
    hide MasjidsInv, NamesInv, BlanksInv, DeploymentsInv, OnlyMasjid, MasjidInv, OwnInstancesInv, RegistryInv;
    ProtocolWriteFrame(w, w', id, m);
    OnlyMasjidKeepsInv(w, w', id);
  }

  lemma RecordVoteCounts(w: State, caller: Address, now: Timestamp, id: MasjidId, support: bool)
    requires VotesInv(w, id) && caller !in w.HasAttested(id) && caller != Zero
    ensures VotesInv(RecordVote(w, caller, now, id, support), id)
  {
  }

  lemma RecordVoteMasjid(w: State, caller: Address, now: Timestamp, id: MasjidId, support: bool)
    requires MasjidInv(w, id) && id in w.masjidById && caller !in w.HasAttested(id) && caller != Zero
    ensures var w' := RecordVote(w, caller, now, id, support);
            MasjidInv(w', id) && ProtocolWrite(w, w', id, w'.Get(id))
  {
    hide VotesInv;
    RecordVoteCounts(w, caller, now, id, support);
  }

  lemma RecordVoteKeepsInv(w: State, caller: Address, now: Timestamp, id: MasjidId, support: bool)
    requires Inv(w) && id in w.masjidById && w.Get(id).status == Pending
    requires caller !in w.HasAttested(id) && caller != Zero
    ensures Inv(RecordVote(w, caller, now, id, support))
  {
    hide MasjidInv, NamesInv, BlanksInv, DeploymentsInv, RegistryInv, ProtocolWrite, RecordVote;
    var w' := RecordVote(w, caller, now, id, support);
    RecordVoteMasjid(w, caller, now, id, support);
    ProtocolWriteKeepsInv(w, w', id, w'.Get(id));
  }

  lemma RejectMasjid(w: State, id: MasjidId, m: Masjid)
    requires MasjidInv(w, id) && id in w.masjidById && w.Get(id).status == Pending
    requires m == w.Get(id).(status := Rejected, updatedAt := m.updatedAt)
    ensures MasjidInv(w.WithMasjid(id, m), id) && ProtocolWrite(w, w.WithMasjid(id, m), id, m)
  {
  }

  lemma RejectKeepsInv(w: State, id: MasjidId, m: Masjid)
    requires Inv(w) && id in w.masjidById && w.Get(id).status == Pending
    requires m == w.Get(id).(status := Rejected, updatedAt := m.updatedAt)
    ensures Inv(w.WithMasjid(id, m))
  {
    hide MasjidInv, NamesInv, BlanksInv, DeploymentsInv, RegistryInv, ProtocolWrite;
    RejectMasjid(w, id, m);
    ProtocolWriteKeepsInv(w, w.WithMasjid(id, m), id, m);
  }

  /** A call that rewrites masjid `id` and its instance `a` together. */
  ghost predicate PairWrite(w: State, w': State, id: MasjidId, a: Address, m: Masjid, s: I.State) {
    && id in w.masjidById && w.Get(id).instance == a != Zero
    && w' == w.WithMasjid(id, m).WithInstance(a, s)
    && m == w.Get(id).(status := m.status, masjidAdmin := m.masjidAdmin, updatedAt := m.updatedAt)
  }

  /** Two masjids never share an instance. */
  lemma InstancesAreDistinct(w: State, id: MasjidId, k: MasjidId)
    requires MasjidInv(w, id) && MasjidInv(w, k)
    requires w.Get(id).instance == w.Get(k).instance != Zero
    ensures id == k
  {
  }

  lemma PairUntouched(w: State, w': State, id: MasjidId, a: Address, m: Masjid, s: I.State, k: MasjidId)
    requires PairWrite(w, w', id, a, m, s) && MasjidInv(w, id)
    requires k != id && (k in w.masjidById ==> MasjidInv(w, k))
    ensures Untouched(w, w', k)
  {
  }

  lemma PairFrame(w: State, w': State, id: MasjidId, a: Address, m: Masjid, s: I.State)
    requires PairWrite(w, w', id, a, m, s) && a in w.instances && w.instances[a].id == id == s.id
    requires MasjidsInv(w)
    ensures OnlyMasjid(w, w', id)
  {
    hide MasjidInv, Untouched;
    forall k | k != id ensures Untouched(w, w', k) { PairUntouched(w, w', id, a, m, s, k); }
  }

  lemma PairInstances(w: State, w': State, id: MasjidId, a: Address, m: Masjid, s: I.State)
    requires PairWrite(w, w', id, a, m, s) && a in w.instances && s.id == id
    requires DeploymentsInv(w) && Safety.Inv(s)
    ensures OwnInstancesInv(w', id)
  {
  }

  lemma PairMasjid(w: State, w': State, id: MasjidId, a: Address, m: Masjid, s: I.State)
    requires PairWrite(w, w', id, a, m, s) && MasjidInv(w, id)
    requires HasInstance(m.status) && m.masjidAdmin != Zero && InstanceAgrees(w', id, s)
    ensures MasjidInv(w', id)
  {
  }

  lemma MirrorOf(w: State, id: MasjidId)
    requires MasjidInv(w, id) && w.Get(id).instance != Zero
    ensures w.Get(id).instance in w.instances && InstanceAgrees(w, id, w.instances[w.Get(id).instance])
    ensures HasInstance(w.Get(id).status)
  {
  }

  lemma PairKeepsInv(w: State, w': State, id: MasjidId, a: Address, m: Masjid, s: I.State)
    requires Inv(w) && PairWrite(w, w', id, a, m, s)
    requires HasInstance(m.status) && m.masjidAdmin != Zero && InstanceAgrees(w', id, s) && Safety.Inv(s)
    ensures Inv(w')
  {
    hide Safety.Inv, NamesInv, BlanksInv, OnlyMasjid, OwnInstancesInv, RegistryInv, DeploymentsInv, MasjidInv;
    MirrorOf(w, id);
    PairMasjid(w, w', id, a, m, s);
    PairFrame(w, w', id, a, m, s);
    PairInstances(w, w', id, a, m, s);
    OnlyMasjidKeepsInv(w, w', id);
  }

  // ---- Calls that reach an instance ---------------------------------------------------------

  lemma SetAdminHandsOver(s: I.State, newAdmin: Address, now: Timestamp)
    requires Safety.Inv(s) && s.roles.protocol == {Protocol} && s.roles.admin <= {s.masjidAdmin} && newAdmin != Zero
    ensures var r := I.SetAdmin(s, Protocol, newAdmin);
            && r.Ok? && Safety.Inv(r.value.state)
            && r.value.state.roles == s.roles.(admin := {newAdmin})
            && r.value.state == s.(masjidAdmin := newAdmin, roles := r.value.state.roles)
  {
  }

  lemma SetStatusMirrors(s: I.State, status: I.Verification, now: Timestamp)
    requires Safety.Inv(s) && s.roles.protocol == {Protocol}
    ensures var r := I.SetStatus(s, Protocol, now, status);
            && r.Ok? && Safety.Inv(r.value.state)
            && r.value.state == s.(status := status, verifiedAt := r.value.state.verifiedAt)
  {
  }

  /** What no account's call can change in an instance the protocol owns: its identity, its status, its
      admin on record and the protocol's role; ADMIN_ROLE can only be given up. */
  lemma AccountCallsKeepIdentity(s: I.State, tx: I.Tx)
    requires I.ValidCall(tx.call) && tx.caller.Account?
    requires s.roles.protocol == {Protocol} && s.roles.root == {}
    ensures var s' := I.Next(s, tx);
            && (s'.id, s'.status, s'.masjidAdmin, s'.stablecoin) == (s.id, s.status, s.masjidAdmin, s.stablecoin)
            && s'.roles.protocol == {Protocol} && s'.roles.root == {} && s'.roles.admin <= s.roles.admin
  {
    if tx.call.CallGrantRole? || tx.call.CallRevokeRole? || tx.call.CallRenounceRole? {
      hide I.ProposeCashOut, I.ApproveCashOut, I.ExecuteCashOut, I.CancelCashOut, I.SetBoardMember;
    } else {
      hide I.GrantRole, I.RevokeRole, I.RenounceRole, I.SetBoardMember;
      if tx.call.CallSetBoardMember? { BoardCallsKeepIdentity(s, tx); }
    }
  }

  lemma BoardCallsKeepIdentity(s: I.State, tx: I.Tx)
    requires tx.call.CallSetBoardMember?
    ensures var s' := I.Next(s, tx);
            s' == s.(roles := s.roles.(board := s'.roles.board), boardMemberCount := s'.boardMemberCount)
  {
  }

  lemma TransferAdminKeepsInv(w: State, caller: Address, now: Timestamp, id: MasjidId, newAdmin: Address)
    requires Inv(w) && id in w.masjidById && TransferAdmin(w, caller, now, id, newAdmin).Ok?
    ensures Inv(TransferAdmin(w, caller, now, id, newAdmin).value.state)
  {
    hide Safety.Inv, NamesInv, BlanksInv, RegistryInv, MasjidInv, I.SetAdmin;
    var m := w.Get(id);
    assert m.instance != Zero;
    MirrorOf(w, id);
    assert DeployedInv(w, m.instance);
    SetAdminHandsOver(w.instances[m.instance], newAdmin, now);
    var m' := m.(masjidAdmin := newAdmin, updatedAt := now);
    var s' := I.SetAdmin(w.instances[m.instance], Protocol, newAdmin).value.state;
    PairKeepsInv(w, w.WithMasjid(id, m').WithInstance(m.instance, s'), id, m.instance, m', s');
  }

  lemma SetStatusKeepsInv(w: State, now: Timestamp, id: MasjidId, status: Status)
    requires Inv(w) && id in w.masjidById && w.Get(id).instance != Zero
    requires HasInstance(status)
    ensures var r := SetStatus(w, now, id, status, Mirrored(status)); r.Ok? && Inv(r.value.state)
  {
    hide Safety.Inv, NamesInv, BlanksInv, RegistryInv, I.SetStatus, TermsInv, VotesInv;
    var m := w.Get(id);
    MirrorOf(w, id);
    assert DeployedInv(w, m.instance);
    SetStatusMirrors(w.instances[m.instance], Mirrored(status), now);
    var m' := m.(status := status, updatedAt := now);
    var s' := I.SetStatus(w.instances[m.instance], Protocol, now, Mirrored(status)).value.state;
    AdminIsSet(w, id);
    PairKeepsInv(w, w.WithMasjid(id, m').WithInstance(m.instance, s'), id, m.instance, m', s');
  }

  lemma AdminIsSet(w: State, id: MasjidId)
    requires MasjidInv(w, id)
    ensures w.Get(id).masjidAdmin != Zero
  {
  }

  lemma InstanceCallKeepsInv(w: State, a: Address, tx: I.Tx)
    requires Inv(w) && a in w.instances && I.ValidCall(tx.call) && tx.caller.Account?
    ensures Inv(w.WithInstance(a, I.Next(w.instances[a], tx)))
  {
    hide Safety.Inv, NamesInv, BlanksInv, RegistryInv, I.Next, TermsInv, VotesInv;
    assert DeployedInv(w, a);
    var s, s' := w.instances[a], I.Next(w.instances[a], tx);
    var id := s.id;
    MirrorOf(w, id);
    AccountCallsKeepIdentity(s, tx);
    Safety.StepKeepsInv(s, tx);
    AdminIsSet(w, id);
    var w' := w.WithInstance(a, s');
    assert w' == w.WithMasjid(id, w.Get(id)).WithInstance(a, s') by {
      assert w.masjidById[id := w.Get(id)] == w.masjidById;
    }
    PairKeepsInv(w, w', id, a, w.Get(id), s');
  }

  // ---- Deployment ---------------------------------------------------------------------------

  /** What a pending masjid's verification commits. */
  ghost predicate DeployWrite(w: State, w': State, now: Timestamp, id: MasjidId, s: I.State) {
    var a := Deployed(w.deployments);
    && w' == w.WithMasjid(id, w.Get(id).(instance := a, status := Verified, updatedAt := now)).WithInstance(a, s)
              .(factory := w.factory[id := a], deployments := w.deployments + 1)
    && Safety.Inv(s)
    && InstanceAgrees(w', id, s)
    && s.roles.board == ToSet(w.Board(id)) && s.roles.admin == {w.Get(id).proposer}
    && s.boardMemberCount == |w.Board(id)| == |s.roles.board|
    && s.cashOutThreshold == w.Get(id).cashOutThreshold
  }

  lemma ConstructedState(id: MasjidId, admin: Address, coin: Address, board: seq<Address>, threshold: nat,
                         now: Timestamp)
    requires admin != Zero && coin != Zero && 1 <= threshold <= |board|
    ensures var r := I.Construct(Protocol, id, admin, coin, board, threshold, now);
            && (r.Ok? <==> I.WellFormedBoard(board))
            && (r.Ok? ==>
                  && Safety.Inv(r.value.state)
                  && r.value.state.roles == I.Roles({Protocol}, {admin}, ToSet(board), {})
                  && r.value.state.boardMemberCount == |board| == |ToSet(board)|
                  && r.value.state.cashOutThreshold == threshold
                  && r.value.state.id == id && r.value.state.masjidAdmin == admin && r.value.state.stablecoin == coin
                  && r.value.state.status == I.Unverified)
  {
    I.BoardAccepted(board);
    var r := I.Construct(Protocol, id, admin, coin, board, threshold, now);
    if r.Ok? {
      assert Safety.BornAs(r.value.state, Protocol, id, admin, coin, board, threshold, now);
      Safety.BornInv(r.value.state);
      assert r.value.state.roles.board == ToSet(board);
    }
  }

  lemma DeployShape(w: State, now: Timestamp, id: MasjidId, name: string, admin: Address, coin: Address,
                    board: seq<Address>, threshold: nat)
    requires |name| > 0 && admin != Zero && coin != Zero && w.FactoryEntry(id) == Zero
    ensures var r := I.Construct(Protocol, id, admin, coin, board, threshold, now);
            var deployed := DeployMasjid(w, Protocol, now, id, name, admin, coin, board, threshold);
            var a := Deployed(w.deployments);
            && (deployed.Ok? <==> r.Ok?)
            && (r.Ok? ==>
                  && deployed.value.state
                     == w.WithInstance(a, r.value.state).(factory := w.factory[id := a],
                                                          deployments := w.deployments + 1)
                  && deployed.value.state.FactoryEntry(id) == a)
  {
    hide I.Construct;
  }

  /** Verify constructs an instance and writes it, marked verified, beside the masjid that names it. */
  lemma VerifyShape(w: State, now: Timestamp, id: MasjidId)
    requires var m := w.Get(id);
             && |m.masjidName| > 0 && m.proposer != Zero && m.stablecoin != Zero && w.FactoryEntry(id) == Zero
    ensures var m := w.Get(id);
            var r := I.Construct(Protocol, id, m.proposer, m.stablecoin, w.Board(id), m.cashOutThreshold, now);
            var verified := if r.Ok? then I.SetStatus(r.value.state, Protocol, now, I.Verified) else r;
            var a := Deployed(w.deployments);
            && (Verify(w, now, id).Ok? <==> r.Ok? && verified.Ok?)
            && (Verify(w, now, id).Ok? ==>
                  Verify(w, now, id).value.state
                  == w.WithMasjid(id, m.(instance := a, status := Verified, updatedAt := now))
                      .WithInstance(a, verified.value.state).(factory := w.factory[id := a],
                                                              deployments := w.deployments + 1))
  {
    hide I.SetStatus, I.Construct, DeployMasjid;
    var m := w.Get(id);
    DeployShape(w, now, id, m.masjidName, m.proposer, m.stablecoin, w.Board(id), m.cashOutThreshold);
    var r := I.Construct(Protocol, id, m.proposer, m.stablecoin, w.Board(id), m.cashOutThreshold, now);
    if r.Ok? {
      var a := Deployed(w.deployments);
      var verified := I.SetStatus(r.value.state, Protocol, now, I.Verified);
      if verified.Ok? {
        assert w.instances[a := r.value.state][a := verified.value.state] == w.instances[a := verified.value.state];
      }
    }
  }

  /** Verification of a pending masjid commits exactly when its board has no zero address and no
      repetition; the instance then starts with every listed member counted, a strict majority of them
      as the threshold, and the proposer as admin. */
  lemma VerifyDeploys(w: State, now: Timestamp, id: MasjidId)
    requires MasjidInv(w, id) && w.Get(id).status == Pending
    ensures Verify(w, now, id).Ok? <==> I.WellFormedBoard(w.Board(id))
    ensures Verify(w, now, id).Ok? ==>
              var w' := Verify(w, now, id).value.state;
              var a := Deployed(w.deployments);
              a in w'.instances && DeployWrite(w, w', now, id, w'.instances[a])
  {
    hide Verify, I.SetStatus, I.Construct, VotesInv, Safety.Inv, I.WellFormedBoard;
    var m := w.Get(id);
    VerifyShape(w, now, id);
    ConstructedState(id, m.proposer, m.stablecoin, w.Board(id), m.cashOutThreshold, now);
    var r := I.Construct(Protocol, id, m.proposer, m.stablecoin, w.Board(id), m.cashOutThreshold, now);
    if r.Ok? { SetStatusMirrors(r.value.state, I.Verified, now); }
  }

  lemma DeployMasjidInv(w: State, w': State, now: Timestamp, id: MasjidId, s: I.State)
    requires MasjidInv(w, id) && w.Get(id).status == Pending && DeployWrite(w, w', now, id, s)
    requires I.WellFormedBoard(w.Board(id))
    ensures MasjidInv(w', id)
  {
  }

  lemma DeployUntouched(w: State, w': State, now: Timestamp, id: MasjidId, s: I.State, k: MasjidId)
    requires DeployWrite(w, w', now, id, s) && DeploymentsInv(w) && k != id
    ensures Untouched(w, w', k)
  {
    hide Safety.Inv;
  }

  lemma DeployFrame(w: State, w': State, now: Timestamp, id: MasjidId, s: I.State)
    requires DeployWrite(w, w', now, id, s) && DeploymentsInv(w)
    ensures OnlyMasjid(w, w', id)
  {
    hide Safety.Inv, Untouched, DeploymentsInv;
    forall k | k != id ensures Untouched(w, w', k) { DeployUntouched(w, w', now, id, s, k); }
  }

  lemma DeployInstances(w: State, w': State, now: Timestamp, id: MasjidId, s: I.State)
    requires DeployWrite(w, w', now, id, s) && DeploymentsInv(w) && w.Get(id).instance == Zero
    ensures OwnInstancesInv(w', id)
  {
    hide Safety.Inv;
  }

  lemma VerifyKeepsInv(w: State, now: Timestamp, id: MasjidId)
    requires Inv(w) && id in w.masjidById && w.Get(id).status == Pending && Verify(w, now, id).Ok?
    ensures Inv(Verify(w, now, id).value.state)
  {
    hide Verify, MasjidInv, OnlyMasjid, OwnInstancesInv, NamesInv, BlanksInv, DeploymentsInv, Safety.Inv, RegistryInv;
    hide I.WellFormedBoard;
    VerifyDeploys(w, now, id);
    var w' := Verify(w, now, id).value.state;
    var s := w'.instances[Deployed(w.deployments)];
    PendingHasNoInstance(w, id);
    DeployMasjidInv(w, w', now, id, s);
    DeployFrame(w, w', now, id, s);
    DeployInstances(w, w', now, id, s);
    OnlyMasjidKeepsInv(w, w', id);
  }

  lemma PendingHasNoInstance(w: State, id: MasjidId)
    requires MasjidInv(w, id) && !HasInstance(w.Get(id).status)
    ensures w.Get(id).instance == Zero && w.FactoryEntry(id) == Zero && w.Get(id).masjidAdmin == w.Get(id).proposer
  {
  }

  lemma AttestKeepsInv(w: State, caller: Address, now: Timestamp, id: MasjidId, support: bool)
    requires Inv(w) && caller != Zero && Attest(w, caller, now, id, support).Ok?
    ensures Inv(Attest(w, caller, now, id, support).value.state)
  {
    hide Inv, Verify, RecordVote;
    var w' := RecordVote(w, caller, now, id, support);
    RecordVoteKeepsInv(w, caller, now, id, support);
    RecordVoteFacts(w, caller, now, id, support);
    if w'.Get(id).attestYes >= w.registry.Quorum() {
      VerifyKeepsInv(w', now, id);
    } else if w'.Get(id).attestNo >= w.registry.Quorum() {
      RejectKeepsInv(w', id, w'.Get(id).(status := Rejected, updatedAt := now));
    }
  }

  lemma RecordVoteFacts(w: State, caller: Address, now: Timestamp, id: MasjidId, support: bool)
    ensures var w' := RecordVote(w, caller, now, id, support);
            && id in w'.masjidById && w'.registry == w.registry && w'.instances == w.instances
            && w'.Get(id) == w.Get(id).(updatedAt := now,
                 attestYes := w.Get(id).attestYes + (if support then 1 else 0),
                 attestNo := w.Get(id).attestNo + (if support then 0 else 1))
            && w'.Board(id) == w.Board(id)
            && w'.Attesters(id) == w.Attesters(id) + [caller]
            && w'.HasAttested(id) == w.HasAttested(id) + {caller}
  {
  }

  // ---- Every step, every run ----------------------------------------------------------------

  lemma AddVerifierCounts(w: State, caller: Address, verifier: Address)
    requires RegistryInv(w.registry) && AddVerifier(w, caller, verifier).Ok?
    ensures var w' := AddVerifier(w, caller, verifier).value.state;
            w' == w.(registry := w'.registry) && RegistryInv(w'.registry)
  {
  }

  lemma RemoveVerifierCounts(w: State, caller: Address, verifier: Address)
    requires RegistryInv(w.registry) && RemoveVerifier(w, caller, verifier).Ok?
    ensures var w' := RemoveVerifier(w, caller, verifier).value.state;
            w' == w.(registry := w'.registry) && RegistryInv(w'.registry)
  {
  }

  lemma RegistryStepKeepsInv(w: State, tx: Tx)
    requires Inv(w) && ValidTx(tx) && Execute(w, tx).Ok?
    requires tx.call.CallTransferAuthority? || tx.call.CallAddVerifier? || tx.call.CallRemoveVerifier?
    ensures Inv(Next(w, tx))
  {
    hide MasjidsInv, NamesInv, BlanksInv, DeploymentsInv, AddVerifier, RemoveVerifier;
    match tx.call {
      case CallAddVerifier(verifier) => AddVerifierCounts(w, tx.caller, verifier);
      case CallRemoveVerifier(verifier) => RemoveVerifierCounts(w, tx.caller, verifier);
      case _ =>
    }
    RegistryCallKeepsInv(w, Next(w, tx).registry);
  }

  lemma StepKeepsInv(w: State, tx: Tx)
    requires Inv(w) && ValidTx(tx)
    ensures Inv(Next(w, tx))
  {
    hide Inv, Attest, TransferAdmin, SetStatus, Register, AddVerifier, RemoveVerifier, TransferAuthority, I.Execute;
    if Execute(w, tx).Ok? {
      match tx.call
      case CallTransferAuthority(_) => RegistryStepKeepsInv(w, tx);
      case CallAddVerifier(_) => RegistryStepKeepsInv(w, tx);
      case CallRemoveVerifier(_) => RegistryStepKeepsInv(w, tx);
      case CallRegister(name, uri, coin, board) => RegisterKeepsInv(w, tx.caller, tx.now, name, uri, coin, board);
      case CallAttest(id, support) => AttestKeepsInv(w, tx.caller, tx.now, id, support);
      case CallTransferAdmin(id, newAdmin) =>
        TransferAdminIsRegistered(w, tx.caller, tx.now, id, newAdmin);
        TransferAdminKeepsInv(w, tx.caller, tx.now, id, newAdmin);
      case CallFlag(id) => SetStatusKeepsInv(w, tx.now, id, Flagged);
      case CallUnflag(id) => SetStatusKeepsInv(w, tx.now, id, Verified);
      case CallRevoke(id) => SetStatusKeepsInv(w, tx.now, id, Revoked);
      case CallInstance(a, call) => InstanceCallKeepsInv(w, a, I.Tx(tx.caller, tx.now, call));
    }
  }

  lemma TransferAdminIsRegistered(w: State, caller: Address, now: Timestamp, id: MasjidId, newAdmin: Address)
    requires TransferAdmin(w, caller, now, id, newAdmin).Ok?
    ensures id in w.masjidById
  {
  }

  /** Every reachable state satisfies the whole invariant. */
  lemma {:induction false} RunKeepsInv(ws: seq<State>, txs: seq<Tx>, n: nat)
    requires IsRun(ws, txs) && n <= |txs|
    ensures Inv(ws[n])
  {
    hide Inv, Execute;
    if n == 0 {
      InitialInv(ws[0]);
    } else {
      RunKeepsInv(ws, txs, n - 1);
      StepKeepsInv(ws[n - 1], txs[n - 1]);
    }
  }
}
