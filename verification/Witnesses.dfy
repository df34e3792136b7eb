/** Runs from the initial state that show the failing cases to be real. */
module Witnesses {
  import opened Types
  import opened World
  import opened WorldSafety
  import opened Governance
  import opened Projection
  import opened Replay
  import opened Facts
  import opened Chain
  import R = Refinement
  import D = Disclosure
  import V = Votes
  import I = Instance

  // ---- Making runs --------------------------------------------------------------------------

  /** A run of which every transaction was mined at `now`. */
  ghost predicate Lived(ws: seq<State>, txs: seq<Tx>, now: Timestamp) {
    && |ws| == |txs| + 1 && IsRun(ws, txs) && ws[|txs|].registry.authority.Account?
    && forall i :: 0 <= i < |txs| ==> txs[i].now == now
  }

  lemma Begin(w: State, now: Timestamp)
    requires Initial(w) && w.registry.authority.Account?
    ensures Lived([w], [], now)
  {
  }

  /** One more transaction. */
  lemma OneMore(ws: seq<State>, txs: seq<Tx>, now: Timestamp, caller: Address, call: Call)
      returns (ws': seq<State>, txs': seq<Tx>)
    requires Lived(ws, txs, now) && ValidTx(Tx(caller, now, call))
    requires Next(ws[|txs|], Tx(caller, now, call)).registry.authority.Account?
    ensures txs' == txs + [Tx(caller, now, call)] && ws' == ws + [Next(ws[|txs|], Tx(caller, now, call))]
    ensures Lived(ws', txs', now)
  {
    hide Next, Execute, Initial;
    txs', ws' := txs + [Tx(caller, now, call)], ws + [Next(ws[|txs|], Tx(caller, now, call))];
    forall i | 0 <= i < |txs'| ensures ValidTx(txs'[i]) && ws'[i + 1] == Next(ws'[i], txs'[i]) {
      if i < |txs| { assert ws'[i + 1] == ws[i + 1] && ws'[i] == ws[i]; }
    }
    assert ws'[0] == ws[0];
  }

  /** The authority enrols a verifier. */
  lemma Enrol(ws: seq<State>, txs: seq<Tx>, now: Timestamp, v: Address) returns (ws': seq<State>, txs': seq<Tx>)
    requires Lived(ws, txs, now) && v.Account? && |txs| < MAX_UINT32
    requires v !in ws[|txs|].registry.verifiers && ws[|txs|].registry.verifierCount < MAX_UINT32
    ensures Lived(ws', txs', now)
    ensures var r := ws[|txs|].registry;
            && txs' == txs + [Tx(r.authority, now, CallAddVerifier(v))]
            && ws' == ws + [ws[|txs|].(registry := Registry(r.authority, r.verifierCount + 1, r.verifiers + {v}))]
            && Logs(ws[|txs|], txs'[|txs|]) == [VerifierAdded(v)]
  {
    hide IsRun;
    ws', txs' := OneMore(ws, txs, now, ws[|txs|].registry.authority, CallAddVerifier(v));
  }

  /** The authority strikes a verifier off. */
  lemma Strike(ws: seq<State>, txs: seq<Tx>, now: Timestamp, v: Address) returns (ws': seq<State>, txs': seq<Tx>)
    requires Lived(ws, txs, now) && v in ws[|txs|].registry.verifiers && ws[|txs|].registry.verifierCount > 0
    ensures Lived(ws', txs', now)
    ensures var r := ws[|txs|].registry;
            && txs' == txs + [Tx(r.authority, now, CallRemoveVerifier(v))]
            && ws' == ws + [ws[|txs|].(registry := Registry(r.authority, r.verifierCount - 1, r.verifiers - {v}))]
  {
    hide IsRun;
    ws', txs' := OneMore(ws, txs, now, ws[|txs|].registry.authority, CallRemoveVerifier(v));
  }

  /** What a registration in state `w` is of. */
  function IdOf(w: State, proposer: Address, name: string): MasjidId { IdHash(w.masjidNonce + 1, proposer,
                Keccak(name)) }

  /** A masjid awaiting votes, with what it has of them. */
  ghost predicate Awaits(w: State, id: MasjidId, board: seq<Address>, yes: nat, no: nat, voters: set<Address>) {
    && Inv(w) && id in w.masjidById && w.Board(id) == board
    && w.Get(id).status == Pending && w.Get(id).attestYes == yes && w.Get(id).attestNo == no
    && w.HasAttested(id) == voters
  }

  lemma Enter(ws: seq<State>, txs: seq<Tx>, now: Timestamp, proposer: Address, name: string, uri: string,
              coin: Address, board: seq<Address>)
      returns (ws': seq<State>, txs': seq<Tx>)
    requires Lived(ws, txs, now) && proposer.Account? && |name| > 0 && coin != Zero && |board| > 0
    requires ws[|txs|].masjidNonce < MAX_UINT32
    requires var w := ws[|txs|];
             Keccak(name) in w.masjidIdByNameHash ==> w.Get(w.masjidIdByNameHash[Keccak(name)]).status == Rejected
    ensures Lived(ws', txs', now)
    ensures var w, id := ws[|txs|], IdOf(ws[|txs|], proposer, name);
            && txs' == txs + [Tx(proposer, now, CallRegister(name, uri, coin, board))] && |ws'| == |ws| + 1 && ws < ws'
            && var w' := ws'[|txs'|];
            && Awaits(w', id, board, 0, 0, {}) && w'.registry == w.registry && w'.instances == w.instances
            && w'.deployments == w.deployments && w'.masjidNonce == w.masjidNonce + 1
            && w'.masjidIdByNameHash == w.masjidIdByNameHash[Keccak(name) := id]
            && Logs(w, txs'[|txs|]) == [MasjidRegistered(id, Keccak(name), proposer, name, uri, coin, board)]
  {
    hide IsRun, Inv;
    var w, id := ws[|txs|], IdOf(ws[|txs|], proposer, name);
    ws', txs' := OneMore(ws, txs, now, proposer, CallRegister(name, uri, coin, board));
    LivedKeepsInv(ws, txs, now);
    LivedKeepsInv(ws', txs', now);
    NewIdIsBlank(w, proposer, name);
  }

  lemma NewIdIsBlank(w: State, proposer: Address, name: string)
    requires Inv(w)
    ensures var id := IdOf(w, proposer, name); w.Get(id) == NO_MASJID && w.HasAttested(id) == {}
  {
    hide RegistryInv, MasjidInv, NamesInv, DeploymentsInv;
    RegisterIsFresh(w, proposer, name);
  }

  lemma LivedKeepsInv(ws: seq<State>, txs: seq<Tx>, now: Timestamp)
    requires Lived(ws, txs, now)
    ensures Inv(ws[|txs|])
  {
    hide Inv, Next;
    RunKeepsInv(ws, txs, |txs|);
  }

  /** A vote that decides nothing. */
  lemma VoteOn(ws: seq<State>, txs: seq<Tx>, now: Timestamp, id: MasjidId, board: seq<Address>, yes: nat, no: nat,
               voters: set<Address>, v: Address, support: bool)
      returns (ws': seq<State>, txs': seq<Tx>)
    requires Lived(ws, txs, now) && Awaits(ws[|txs|], id, board, yes, no, voters) && I.WellFormedBoard(board)
    requires v.Account? && v in ws[|txs|].registry.verifiers && v !in voters
    requires yes < MAX_UINT32 && no < MAX_UINT32
    requires (if support then yes + 1 else yes) < ws[|txs|].registry.Quorum()
    requires (if support then no else no + 1) < ws[|txs|].registry.Quorum()
    ensures Lived(ws', txs', now)
    ensures txs' == txs + [Tx(v, now, CallAttest(id, support))] && |ws'| == |ws| + 1 && ws < ws'
    ensures ws'[|txs'|].registry == ws[|txs|].registry
    ensures Awaits(ws'[|txs'|], id, board, if support then yes + 1 else yes, if support then no else no + 1,
                   voters + {v})
  {
    hide IsRun, Inv, Attest, I.WellFormedBoard;
    var w := ws[|txs|];
    V.PendingVoteCommits(w, id, V.Ballot(v, support), now);
    AttestEffect(w, v, now, id, support);
    ws', txs' := OneMore(ws, txs, now, v, CallAttest(id, support));
    LivedKeepsInv(ws', txs', now);
  }

  // ---- A no vote that verifies --------------------------------------------------------------

  lemma FiveVerifiers(w: State, now: Timestamp) returns (ws: seq<State>, txs: seq<Tx>)
    requires Initial(w) && w.registry.authority.Account?
    ensures Lived(ws, txs, now) && |txs| == 5 && ws[0] == w
    ensures var five := {Account(1), Account(2), Account(3), Account(4), Account(5)};
            ws[5] == w.(registry := Registry(w.registry.authority, 5, five))
  {
    hide IsRun;
    Begin(w, now);
    ws, txs := Enrol([w], [], now, Account(1));
    ws, txs := Enrol(ws, txs, now, Account(2));
    ws, txs := Enrol(ws, txs, now, Account(3));
    ws, txs := Enrol(ws, txs, now, Account(4));
    ws, txs := Enrol(ws, txs, now, Account(5));
  }

  /** Five verifiers; accounts 1 and 2 vote for a masjid, 3 and 4 against it; the authority strikes the two
      supporters off; and the vote of account 5 against it verifies the masjid, three opponents to two. */
  lemma RemovalLetsANoVoteVerify(w: State, now: Timestamp, proposer: Address, name: string, coin: Address,
                                 member: Address)
      returns (ws: seq<State>, txs: seq<Tx>)
    requires Initial(w) && w.registry.authority.Account?
    requires proposer.Account? && |name| > 0 && coin != Zero && member != Zero
    ensures IsRun(ws, txs) && |txs| == 13 && ws[0] == w
    ensures var id := IdHash(1, proposer, Keccak(name));
            var authority := w.registry.authority;
            && txs[6] == Tx(Account(1), now, CallAttest(id, true))
            && txs[7] == Tx(Account(2), now, CallAttest(id, true))
            && txs[8] == Tx(Account(3), now, CallAttest(id, false))
            && txs[9] == Tx(Account(4), now, CallAttest(id, false))
            && txs[10] == Tx(authority, now, CallRemoveVerifier(Account(1)))
            && txs[11] == Tx(authority, now, CallRemoveVerifier(Account(2)))
            && txs[12] == Tx(Account(5), now, CallAttest(id, false))
            && ws[12].Get(id).status == Pending
            && ws[13].Get(id).status == Verified && ws[13].Get(id).attestNo == 3 > ws[13].Get(id).attestYes == 2
  {
    hide IsRun, Inv, Awaits, Attest, I.WellFormedBoard, FourVoters;
    var id, board := IdHash(1, proposer, Keccak(name)), [member];
    OnlyFour();
    ws, txs := FiveVerifiers(w, now);
    ws, txs := Enter(ws, txs, now, proposer, name, "", coin, board);
    OneMemberBoard(member);
    ws, txs := TwoAgainstTwo(ws, txs, now, id, board);
    ws, txs := LastVoteVerifies(ws, txs, now, id, board, FourVoters());
  }

  function FourVoters(): set<Address> { {} + {Account(1)} + {Account(2)} + {Account(3)} + {Account(4)} }

  lemma TwoAgainstTwo(ws: seq<State>, txs: seq<Tx>, now: Timestamp, id: MasjidId, board: seq<Address>)
      returns (ws': seq<State>, txs': seq<Tx>)
    requires Lived(ws, txs, now) && I.WellFormedBoard(board) && Awaits(ws[|txs|], id, board, 0, 0, {})
    requires ws[|txs|].registry.verifierCount == 5
    requires {Account(1), Account(2), Account(3), Account(4)} <= ws[|txs|].registry.verifiers
    ensures Lived(ws', txs', now) && |txs'| == |txs| + 4 && txs < txs' && ws < ws'
    ensures var n := |txs|;
            && txs'[n] == Tx(Account(1), now, CallAttest(id, true))
            && txs'[n + 1] == Tx(Account(2), now, CallAttest(id, true))
            && txs'[n + 2] == Tx(Account(3), now, CallAttest(id, false))
            && txs'[n + 3] == Tx(Account(4), now, CallAttest(id, false))
    ensures ws'[|txs'|].registry == ws[|txs|].registry && Awaits(ws'[|txs'|], id, board, 2, 2, FourVoters())
  {
    hide IsRun, Awaits, I.WellFormedBoard;
    var one := {} + {Account(1)};
    var two := one + {Account(2)};
    var three := two + {Account(3)};
    ws', txs' := VoteOn(ws, txs, now, id, board, 0, 0, {}, Account(1), true);
    ws', txs' := VoteOn(ws', txs', now, id, board, 1, 0, one, Account(2), true);
    ws', txs' := VoteOn(ws', txs', now, id, board, 2, 0, two, Account(3), false);
    ws', txs' := VoteOn(ws', txs', now, id, board, 2, 1, three, Account(4), false);
  }

  lemma OnlyFour()
    ensures Account(5) !in FourVoters()
  {
  }

  lemma OneMemberBoard(member: Address)
    requires member != Zero
    ensures I.WellFormedBoard([member])
  {
  }

  lemma LastVoteVerifies(ws: seq<State>, txs: seq<Tx>, now: Timestamp, id: MasjidId, board: seq<Address>,
                         voters: set<Address>)
      returns (ws': seq<State>, txs': seq<Tx>)
    requires Lived(ws, txs, now) && I.WellFormedBoard(board)
    requires ws[|txs|].registry.verifierCount == 5
    requires {Account(1), Account(2), Account(5)} <= ws[|txs|].registry.verifiers
    requires Awaits(ws[|txs|], id, board, 2, 2, voters) && Account(5) !in voters
    ensures Lived(ws', txs', now) && |txs'| == |txs| + 3 && txs < txs' && ws < ws'
    ensures var n, authority := |txs|, ws[|txs|].registry.authority;
            && txs'[n] == Tx(authority, now, CallRemoveVerifier(Account(1)))
            && txs'[n + 1] == Tx(authority, now, CallRemoveVerifier(Account(2)))
            && txs'[n + 2] == Tx(Account(5), now, CallAttest(id, false))
            && ws'[n + 2].Get(id).status == Pending
            && ws'[n + 3].Get(id).status == Verified
            && ws'[n + 3].Get(id).attestNo == 3 && ws'[n + 3].Get(id).attestYes == 2
  {
    hide IsRun, Inv, Attest, I.WellFormedBoard;
    ws', txs' := Strike(ws, txs, now, Account(1));
    ws', txs' := Strike(ws', txs', now, Account(2));
    LivedKeepsInv(ws', txs', now);
    var w2 := ws'[|txs'|];
    V.PendingVoteCommits(w2, id, V.Ballot(Account(5), false), now);
    AttestEffect(w2, Account(5), now, id, false);
    ws', txs' := OneMore(ws', txs', now, Account(5), CallAttest(id, false));
  }

  // ---- An interrupted replay ----------------------------------------------------------------

  /** The only verifier votes against a masjid, which rejects it. */
  lemma Refuse(ws: seq<State>, txs: seq<Tx>, now: Timestamp, id: MasjidId, board: seq<Address>, v: Address)
      returns (ws': seq<State>, txs': seq<Tx>)
    requires Lived(ws, txs, now) && Awaits(ws[|txs|], id, board, 0, 0, {}) && ws[|txs|].registry.Quorum() == 1
    requires v.Account? && v in ws[|txs|].registry.verifiers
    ensures Lived(ws', txs', now)
    ensures txs' == txs + [Tx(v, now, CallAttest(id, false))] && |ws'| == |ws| + 1 && ws < ws'
    ensures var w, w' := ws[|txs|], ws'[|txs'|];
            && w'.Get(id).status == Rejected && w'.masjidNonce == w.masjidNonce
            && w'.masjidIdByNameHash == w.masjidIdByNameHash
    ensures Logs(ws[|txs|], txs'[|txs|]) == [MasjidAttested(id, v, false, 0, 1), MasjidRejected(id, [v], 0, 1)]
  {
    hide IsRun, Attest, Inv, Awaits;
    LoneRefusal(ws[|txs|], now, id, board, v);
    ws', txs' := OneMore(ws, txs, now, v, CallAttest(id, false));
  }

  lemma LoneRefusal(w: State, now: Timestamp, id: MasjidId, board: seq<Address>, v: Address)
    requires Awaits(w, id, board, 0, 0, {}) && w.registry.Quorum() == 1 && v in w.registry.verifiers
    ensures var r := Attest(w, v, now, id, false);
            && r.Ok? && r.value.state.Get(id).status == Rejected && r.value.state.registry == w.registry
            && r.value.state.masjidNonce == w.masjidNonce
            && r.value.state.masjidIdByNameHash == w.masjidIdByNameHash
            && r.value.logs == [MasjidAttested(id, v, false, 0, 1), MasjidRejected(id, [v], 0, 1)]
  {
    hide Inv, Verify, MAX_UINT32;
    NobodyAttested(w, id);
    KnownMasjid(w, id);
    assert [] + [v] == [v];
    assert MAX_UINT32 > 0 by { MaxIsPositive(); }
  }

  lemma MaxIsPositive()
    ensures MAX_UINT32 > 0
  {
  }

  lemma NobodyAttested(w: State, id: MasjidId)
    requires Inv(w) && id in w.masjidById && w.HasAttested(id) == {}
    ensures w.Attesters(id) == []
  {
    hide RegistryInv, NamesInv, BlanksInv, DeploymentsInv, TermsInv, MirrorInv;
    assert MasjidInv(w, id);
    CardinalityOfDistinct(w.Attesters(id));
  }

  lemma KnownMasjid(w: State, id: MasjidId)
    requires Inv(w) && id in w.masjidById
    ensures w.Get(id).createdAt > 0
  {
    hide RegistryInv, NamesInv, BlanksInv, DeploymentsInv, VotesInv, MirrorInv;
    assert MasjidInv(w, id);
  }

  /** A registry with one verifier, a registration, and the vote that rejects it. */
  lemma RejectionRun(w: State, now: Timestamp, v: Address, proposer: Address, name: string, coin: Address,
                     member: Address)
      returns (ws: seq<State>, txs: seq<Tx>)
    requires Initial(w) && w.registry.authority.Account? && v.Account?
    requires proposer.Account? && |name| > 0 && coin != Zero && member != Zero
    ensures Lived(ws, txs, now) && |txs| == 3 && ws[0] == w
    ensures var id := IdHash(1, proposer, Keccak(name));
            && ws[3].Get(id).status == Rejected
            && R.LogOf(ws, txs, 3) == [R.Stamped(VerifierAdded(v), now),
                                       R.Stamped(MasjidRegistered(id, Keccak(name), proposer, name, "", coin,
                                                                  [member]), now),
                                       R.Stamped(MasjidAttested(id, v, false, 0, 1), now),
                                       R.Stamped(MasjidRejected(id, [v], 0, 1), now)]
  {
    hide IsRun, Inv, Logs, R.Stamped;
    var id := IdHash(1, proposer, Keccak(name));
    Begin(w, now);
    ws, txs := Enrol([w], [], now, v);
    ws, txs := Enter(ws, txs, now, proposer, name, "", coin, [member]);
    ws, txs := Refuse(ws, txs, now, id, [member], v);
    assert R.LogOf(ws, txs, 0) == [];
    assert R.LogOf(ws, txs, 1) == R.Stamp([VerifierAdded(v)], now);
    assert R.LogOf(ws, txs, 2) == R.LogOf(ws, txs, 1)
                                  + R.Stamp([MasjidRegistered(id, Keccak(name), proposer, name, "", coin, [member])],
                                            now);
    assert R.LogOf(ws, txs, 3) == R.LogOf(ws, txs, 2)
                                  + R.Stamp([MasjidAttested(id, v, false, 0, 1), MasjidRejected(id, [v], 0, 1)], now);
  }

  /** On tables that hold the whole log of that run, a pass that goes back to the start, handles the log up to
      the registration and fails leaves the rejected masjid pending. */
  lemma InterruptedReplayCanLoseAnUpdate(w: State, now: Timestamp, v: Address, proposer: Address, name: string,
                                         coin: Address, member: Address)
      returns (ws: seq<State>, txs: seq<Tx>)
    requires Initial(w) && w.registry.authority.Account? && v.Account?
    requires proposer.Account? && |name| > 0 && coin != Zero && member != Zero
    ensures IsRun(ws, txs) && |txs| == 3 && ws[0] == w
    ensures var id, log := IdHash(1, proposer, Keccak(name)), R.LogOf(ws, txs, 3);
            && |log| == 4 && ws[3].Get(id).status == Rejected
            && Read(Apply(EMPTY, log), StatusOf(id)) == Some(StatusIs("rejected"))
            && Read(ApplyRange(Apply(EMPTY, log), log, 0, 2), StatusOf(id)) == Some(StatusIs("pending"))
  {
    hide IsRun, Inv, Apply, ApplyRange, Handle, Read, R.LogOf, R.MasjidSide, R.InstanceSide, Initial;
    var id := IdHash(1, proposer, Keccak(name));
    ws, txs := RejectionRun(w, now, v, proposer, name, coin, member);
    var log := R.LogOf(ws, txs, 3);
    LivedKeepsInv(ws, txs, now);
    R.TablesAgreeWithContracts(ws, txs, 3);
    RejectedRow(ws[3], Apply(EMPTY, log), id);
    var db := Apply(EMPTY, log);
    FirstTwo(db, log);
    RegistrationIsPending(Handle(db, log[0]), log[1]);
  }

  lemma FirstTwo(db: Db, log: seq<Log>)
    requires |log| >= 2
    ensures ApplyRange(db, log, 0, 2) == Handle(Handle(db, log[0]), log[1])
  {
    hide Handle;
    assert ApplyRange(db, log, 0, 2) == ApplyRange(Handle(db, log[0]), log, 1, 2);
    assert ApplyRange(Handle(db, log[0]), log, 1, 2) == Handle(Handle(db, log[0]), log[1]);
  }

  lemma RegistrationIsPending(db: Db, l: Log)
    requires l.event.MasjidRegistered?
    ensures Read(Handle(db, l), StatusOf(l.event.id)) == Some(StatusIs("pending"))
  {
    hide HandleInstance;
  }

  lemma RejectedRow(w: State, db: Db, id: MasjidId)
    requires R.MasjidSide(w, db) && w.Get(id).status == Rejected
    ensures Read(db, StatusOf(id)) == Some(StatusIs("rejected"))
  {
    assert R.MasjidAgrees(w, db, id);
  }

  // ---- A name that is free again ------------------------------------------------------------

  /** The only verifier rejects a masjid, and somebody registers another under the same name, which then awaits
      votes of its own. */
  lemma RejectedNameIsRegisteredAgain(w: State, now: Timestamp, v: Address, proposer: Address, another: Address,
                                      name: string, coin: Address, member: Address)
      returns (ws: seq<State>, txs: seq<Tx>)
    requires Initial(w) && w.registry.authority.Account? && v.Account?
    requires proposer.Account? && another.Account? && |name| > 0 && coin != Zero && member != Zero
    ensures IsRun(ws, txs) && |txs| == 4 && ws[0] == w
    ensures var first, second := IdHash(1, proposer, Keccak(name)), IdHash(2, another, Keccak(name));
            && txs[1] == Tx(proposer, now, CallRegister(name, "", coin, [member]))
            && txs[2] == Tx(v, now, CallAttest(first, false))
            && txs[3] == Tx(another, now, CallRegister(name, "", coin, [member]))
            && Execute(ws[1], txs[1]).Ok? && Execute(ws[3], txs[3]).Ok?
            && ws[3].Get(first).status == Rejected && ws[4].Get(second).status == Pending
  {
    hide IsRun, Inv, Execute;
    var first := IdHash(1, proposer, Keccak(name));
    Begin(w, now);
    ws, txs := Enrol([w], [], now, v);
    ws, txs := Enter(ws, txs, now, proposer, name, "", coin, [member]);
    CommittedIfLogged(ws[1], txs[1]);
    ws, txs := Refuse(ws, txs, now, first, [member], v);
    ws, txs := Enter(ws, txs, now, another, name, "", coin, [member]);
    CommittedIfLogged(ws[3], txs[3]);
  }

  lemma CommittedIfLogged(w: State, tx: Tx)
    requires ValidTx(tx) && Logs(w, tx) != []
    ensures Execute(w, tx).Ok?
  {
    hide Execute;
  }

  // ---- An instance pass without its protocol pass -------------------------------------------

  /** The only verifier votes for a masjid, which deploys its instance. */
  lemma Accept(ws: seq<State>, txs: seq<Tx>, now: Timestamp, id: MasjidId, board: seq<Address>, v: Address)
      returns (ws': seq<State>, txs': seq<Tx>)
    requires Lived(ws, txs, now) && Awaits(ws[|txs|], id, board, 0, 0, {}) && I.WellFormedBoard(board)
    requires v.Account? && v in ws[|txs|].registry.verifiers && ws[|txs|].registry.Quorum() == 1
    ensures Lived(ws', txs', now)
    ensures txs' == txs + [Tx(v, now, CallAttest(id, true))] && |ws'| == |ws| + 1 && ws < ws'
    ensures Deploys(ws[|txs|], ws'[|txs'|], board)
  {
    hide IsRun, Inv, Attest, I.WellFormedBoard;
    var w := ws[|txs|];
    V.PendingVoteCommits(w, id, V.Ballot(v, true), now);
    DecisiveYesDeploysOrReverts(w, v, now, id);
    YesDeploys(w, now, id, board, v);
    ws', txs' := OneMore(ws, txs, now, v, CallAttest(id, true));
  }

  /** The next instance is deployed, verified, with the whole board on it, and little else has changed. */
  ghost predicate Deploys(w: State, w': State, board: seq<Address>) {
    var a := Deployed(w.deployments);
    && (w'.registry, w'.masjidNonce, w'.masjidIdByNameHash) == (w.registry, w.masjidNonce, w.masjidIdByNameHash)
    && w'.deployments == w.deployments + 1 && w'.instances.Keys == w.instances.Keys + {a}
    && w'.instances[a].status == I.Verified && w'.instances[a].roles.board == ToSet(board)
  }

  lemma YesDeploys(w: State, now: Timestamp, id: MasjidId, board: seq<Address>, v: Address)
    requires Awaits(w, id, board, 0, 0, {}) && w.registry.Quorum() == 1 && v in w.registry.verifiers
    requires Attest(w, v, now, id, true).Ok? && DecisiveYes(w, v, id)
    requires var w' := Attest(w, v, now, id, true).value.state;
             && Deployed(w.deployments) in w'.instances
             && w'.instances[Deployed(w.deployments)].status == I.Verified
             && w'.instances[Deployed(w.deployments)].roles.board == ToSet(board)
    ensures Deploys(w, Attest(w, v, now, id, true).value.state, board)
  {
    hide NamesInv, BlanksInv, DeploymentsInv, RegistryInv, MasjidsInv, Verify, MasjidInv, I.WellFormedBoard;
    DecisiveYesFacts(w, v, now, id);
    VerifyDeploys(RecordVote(w, v, now, id, true), now, id);
  }

  /** A board member proposes a cash-out. */
  lemma Propose(ws: seq<State>, txs: seq<Tx>, now: Timestamp, a: Address, member: Address)
      returns (ws': seq<State>, txs': seq<Tx>)
    requires Lived(ws, txs, now) && a in ws[|txs|].instances && |txs| < MAX_UINT32
    requires member.Account? && member in ws[|txs|].instances[a].roles.board
    requires ws[|txs|].instances[a].status == I.Verified
    ensures Lived(ws', txs', now) && |txs'| == |txs| + 1 && txs < txs' && |ws'| == |ws| + 1 && ws < ws'
    ensures var n, logs := ws[|txs|].instances[a].cashOutNonce + 1, Logs(ws[|txs|], txs'[|txs|]);
            && |logs| == 1 && logs[0].InstanceLog? && logs[0].instance == a
            && logs[0].event.CashOutProposed? && logs[0].event.requestId == n
  {
    hide IsRun;
    var call := CallInstance(a, I.CallPropose(member, 1, 0, 1));
    FewRequests(ws, txs, now, a);
    ws', txs' := OneMore(ws, txs, now, member, call);
  }

  lemma FewRequests(ws: seq<State>, txs: seq<Tx>, now: Timestamp, a: Address)
    requires Lived(ws, txs, now) && a in ws[|txs|].instances
    ensures ws[|txs|].instances[a].cashOutNonce <= |txs|
  {
    hide IsRun;
    D.Runs.RequestIdsAreFewerThanSteps(ws, txs, |txs|, a);
  }

  /** One verifier has masjid "a" deployed in block 1, and in block 600 masjid "b", on whose instance a board
      member then proposes a cash-out. */
  lemma TwoMasjids(w: State, now: Timestamp, v: Address, proposer: Address, coin: Address, member: Address)
      returns (ws: seq<State>, txs: seq<Tx>)
    requires Initial(w) && w.registry.authority.Account? && v.Account?
    requires proposer.Account? && coin != Zero && member.Account?
    ensures Lived(ws, txs, now) && |txs| == 6 && ws[0] == w
    ensures ws[3].instances.Keys == {Deployed(0)}
    ensures var logs := Logs(ws[5], txs[5]);
            && |logs| == 1 && logs[0].InstanceLog? && logs[0].instance == Deployed(1) && logs[0].event.CashOutProposed?
  {
    hide IsRun, Inv, Awaits, Logs, I.WellFormedBoard;
    var board := [member];
    OneMemberBoard(member);
    Begin(w, now);
    ws, txs := Enrol([w], [], now, v);
    ws, txs := Enter(ws, txs, now, proposer, "a", "", coin, board);
    ws, txs := Accept(ws, txs, now, IdHash(1, proposer, Keccak("a")), board, v);
    ws, txs := Enter(ws, txs, now, proposer, "b", "", coin, board);
    ws, txs := Accept(ws, txs, now, IdHash(2, proposer, Keccak("b")), board, v);
    assert member in ToSet(board);
    ws, txs := Propose(ws, txs, now, Deployed(1), member);
  }

  const MINED := [1, 1, 1, 600, 600, 600]

  lemma MinedInOrder(txs: seq<Tx>)
    requires |txs| == 6
    ensures D.Mined(txs, MINED)
  {
  }

  lemma StepsOfTwoMasjids()
    ensures D.StepsBefore(MINED, 500) == 3 && D.StepsBefore(MINED, 601) == 6
  {
    BeforeSplits(MINED, 500);
    BeforeSplits(MINED, 601);
    assert MINED[2] == 1 && MINED[3] == 600 && MINED[5] == 600;
  }

  lemma ChainOfTwoMasjids(ws: seq<State>, txs: seq<Tx>)
    requires IsRun(ws, txs) && |txs| == 6 && D.Mined(txs, MINED) && |Logs(ws[5], txs[5])| == 1
    ensures var node := D.NodeOf(ws, txs, MINED);
            && node.Before(500) == |R.LogOf(ws, txs, 3)| <= |node.log| && node.Before(601) == |node.log| > 0
            && node.log[..node.Before(500)] == R.LogOf(ws, txs, 3)
            && node.log[|node.log| - 1] == R.Stamped(Logs(ws[5], txs[5])[0], txs[5].now)
  {
    hide Next, Execute, Logs, D.BlocksOf, CountBefore, R.Stamped, Initial;
    StepsOfTwoMasjids();
    D.LogsBeforeBlock(ws, txs, MINED, 500);
    D.LogsBeforeBlock(ws, txs, MINED, 601);
    D.LogGrows(ws, txs, 3, 6);
    assert R.LogOf(ws, txs, 6) == R.LogOf(ws, txs, 5) + R.Stamp(Logs(ws[5], txs[5]), txs[5].now);
  }

  /** The masjid table lists exactly the deployed instances. */
  lemma ListedAreDeployed(w: State, db: Db)
    requires Inv(w) && R.MasjidSide(w, db)
    ensures InstanceAddresses(db.masjids) == w.instances.Keys
  {
    hide RegistryInv, NamesInv, BlanksInv, TermsInv, VotesInv, Safety.Inv;
    forall a ensures a in InstanceAddresses(db.masjids) <==> a in w.instances {
      if a in w.instances { var id := D.RowNamesInstance(w, db, a); }
      if a in InstanceAddresses(db.masjids) {
        var id :| id in db.masjids && db.masjids[id].instanceAddr == Some(a);
        assert R.MasjidAgrees(w, db, id);
        assert MasjidInv(w, id);
      }
    }
  }

  lemma FirstChunkLists(ws: seq<State>, txs: seq<Tx>)
    requires IsRun(ws, txs) && |txs| == 6 && ws[3].instances.Keys == {Deployed(0)}
    ensures var handled := Apply(EMPTY, Filter(R.LogOf(ws, txs, 3), OfProtocol));
            && InstanceAddresses(handled.masjids) == {Deployed(0)}
            && SameRequests(handled, EMPTY)
  {
    hide Next, Execute, Inv, Apply, Filter, R.LogOf, InstanceAddresses, R.InstanceSide, R.MasjidSide;
    SameIsReflexive(EMPTY);
    ProtocolLogsAlone(EMPTY, EMPTY, R.LogOf(ws, txs, 3));
    R.TablesAgreeWithContracts(ws, txs, 3);
    RunKeepsInv(ws, txs, 3);
    ListedAreDeployed(ws[3], Apply(EMPTY, R.LogOf(ws, txs, 3)));
  }

  lemma NothingFetched(db: Db, q: Query)
    ensures Apply(db, Filter([], q)) == db && Apply(db, []) == db
  {
  }

  /** In a poll of that chain whose protocol pass handles its first chunk and cannot fetch its second, while its
      instance pass fetches everything, the list has the first instance only, and the proposal on the second
      is lost for good: the next instance pass starts after it. */
  lemma FailedProtocolPassLosesAProposal(w: State, now: Timestamp, v: Address, proposer: Address, coin: Address,
                                         member: Address)
      returns (ws: seq<State>, txs: seq<Tx>)
    requires Initial(w) && w.registry.authority.Account? && v.Account?
    requires proposer.Account? && coin != Zero && member.Account?
    ensures IsRun(ws, txs) && D.Mined(txs, MINED)
    ensures var node := D.NodeOf(ws, txs, MINED);
            && node.Before(500) <= |node.log| && node.Before(601) == |node.log| > 0
            && var handled := Apply(EMPTY, Filter(node.log[..node.Before(500)], OfProtocol));
            var listed, f := InstanceAddresses(handled.masjids), Tells(node.log[|node.log| - 1]);
            && listed == {Deployed(0)} && f.Some? && f.value.Made? && f.value.a == Deployed(1)
            && !Knows(Apply(handled, Filter(node.log, OfInstances(listed))), f.value)
            && Knows(Apply(EMPTY, node.log), f.value)
  {
    hide IsRun, Inv, Apply, Knows, Filter, CountBefore, R.LogOf, D.BlocksOf, InstanceAddresses, Logs, TellsNews;
    hide WellFormedLog;
    ws, txs := TwoMasjids(w, now, v, proposer, coin, member);
    MinedInOrder(txs);
    var node := D.NodeOf(ws, txs, MINED);
    ChainOfTwoMasjids(ws, txs);
    D.RunChainIsSound(ws, txs, MINED);
    FirstChunkLists(ws, txs);
    var n, handled := |node.log|, Apply(EMPTY, Filter(node.log[..node.Before(500)], OfProtocol));
    var listed := InstanceAddresses(handled.masjids);
    assert node.log[0..n] == node.log && node.log[..n] == node.log && node.log[..0] == [] && node.log[n..n] == [];
    NothingFetched(EMPTY, OfInstances({}));
    UnlistedInstanceIsLost(handled, node.log, 0, n, n, listed, {}, n - 1);
    NothingFetched(Apply(handled, Filter(node.log, OfInstances(listed))), OfInstances({}));
  }
}
