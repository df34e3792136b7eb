/** The attestation vote: what its order can and cannot change. */
module Votes {
  import opened Types
  import opened World
  import opened WorldSafety
  import opened Governance
  import I = Instance

  // ---- Counting -----------------------------------------------------------------------------

  /** In every reachable state the tallies of a masjid add up to its attesters, whose list has no
      repetition and is the set of accounts marked as having attested. */
  lemma TalliesCountAttesters(ws: seq<State>, txs: seq<Tx>, n: nat, id: MasjidId)
    requires IsRun(ws, txs) && n <= |txs|
    ensures var w := ws[n];
            && w.Get(id).attestYes + w.Get(id).attestNo == |w.Attesters(id)| == |w.HasAttested(id)|
            && NoDuplicates(w.Attesters(id)) && ToSet(w.Attesters(id)) == w.HasAttested(id)
            && w.registry.verifierCount == |w.registry.verifiers|
  {
    hide Execute, NamesInv, DeploymentsInv, TermsInv, MirrorInv;
    var w := ws[n];
    RunKeepsInv(ws, txs, n);
    if id in w.masjidById {
      assert MasjidInv(w, id);
      CardinalityOfDistinct(w.Attesters(id));
    } else {
      assert Blank(w, id);
    }
  }

  // ---- The order of the votes ---------------------------------------------------------------

  datatype Ballot = Ballot(verifier: Address, support: bool)

  ghost function Supporters(bs: seq<Ballot>): set<Address> { set b | b in bs && b.support :: b.verifier }

  ghost function Opponents(bs: seq<Ballot>): set<Address> { set b | b in bs && !b.support :: b.verifier }

  ghost predicate DistinctVoters(bs: seq<Ballot>) {
    forall i, j :: 0 <= i < j < |bs| ==> bs[i].verifier != bs[j].verifier
  }

  /** The world after the ballot of `b` on `id` is sent; a ballot the protocol refuses changes nothing. */
  function Cast(w: State, id: MasjidId, b: Ballot, now: Timestamp): State {
    match Attest(w, b.verifier, now, id, b.support)
    case Ok(effect) => effect.state
    case Revert(_) => w
  }

  function CastAll(w: State, id: MasjidId, bs: seq<Ballot>, times: seq<Timestamp>): State
    requires |bs| == |times|
    decreases |bs|
  {
    if bs == [] then w
    else Cast(CastAll(w, id, bs[..|bs| - 1], times[..|bs| - 1]), id, bs[|bs| - 1], times[|bs| - 1])
  }

  /** After the ballots `cast`: still pending with both sides below the quorum, or decided by a side that
      has reached it. */
  ghost predicate Tracks(w: State, id: MasjidId, cast: seq<Ballot>) {
    var m, quorum := w.Get(id), w.registry.Quorum();
    || (&& m.status == Pending
        && m.attestYes == |Supporters(cast)| < quorum && m.attestNo == |Opponents(cast)| < quorum
        && w.HasAttested(id) == Supporters(cast) + Opponents(cast))
    || (m.status == Verified && |Supporters(cast)| >= quorum)
    || (m.status == Rejected && |Opponents(cast)| >= quorum)
  }

  lemma OneMoreBallot(cast: seq<Ballot>, b: Ballot)
    ensures Supporters(cast + [b]) == Supporters(cast) + (if b.support then {b.verifier} else {})
    ensures Opponents(cast + [b]) == Opponents(cast) + (if b.support then {} else {b.verifier})
  {
  }

  lemma DecidedStaysDecided(w: State, id: MasjidId, cast: seq<Ballot>, b: Ballot, now: Timestamp)
    requires Tracks(w, id, cast) && w.Get(id).status != Pending
    ensures Cast(w, id, b, now) == w && Tracks(w, id, cast + [b])
  {
    hide Supporters, Opponents, Verify, RecordVote;
    OneMoreBallot(cast, b);
    SubsetCardinality(Supporters(cast), Supporters(cast + [b]));
    SubsetCardinality(Opponents(cast), Opponents(cast + [b]));
  }

  lemma PendingTracks(w: State, w': State, id: MasjidId, cast: seq<Ballot>, b: Ballot)
    requires Tracks(w, id, cast) && w.Get(id).status == Pending
    requires b.verifier !in Supporters(cast) && b.verifier !in Opponents(cast)
    requires w'.registry == w.registry
    requires w'.Get(id).attestYes == w.Get(id).attestYes + (if b.support then 1 else 0)
    requires w'.Get(id).attestNo == w.Get(id).attestNo + (if b.support then 0 else 1)
    requires w'.HasAttested(id) == w.HasAttested(id) + {b.verifier}
    requires w'.Get(id).status == (if w'.Get(id).attestYes >= w.registry.Quorum() then Verified
                                   else if w'.Get(id).attestNo >= w.registry.Quorum() then Rejected else Pending)
    ensures Tracks(w', id, cast + [b])
  {
    hide Supporters, Opponents, State.Get, State.HasAttested, Registry.Quorum;
    OneMoreBallot(cast, b);
    OneMoreCounts(cast, b);
  }

  lemma OneMoreCounts(cast: seq<Ballot>, b: Ballot)
    requires b.verifier !in Supporters(cast) && b.verifier !in Opponents(cast)
    ensures |Supporters(cast + [b])| == |Supporters(cast)| + (if b.support then 1 else 0)
    ensures |Opponents(cast + [b])| == |Opponents(cast)| + (if b.support then 0 else 1)
  {
    hide Supporters, Opponents;
    OneMoreBallot(cast, b);
  }

  lemma CastTracks(w: State, id: MasjidId, cast: seq<Ballot>, b: Ballot, now: Timestamp)
    requires Inv(w) && id in w.masjidById && I.WellFormedBoard(w.Board(id)) && Tracks(w, id, cast)
    requires b.verifier in w.registry.verifiers && |w.registry.verifiers| <= MAX_UINT32
    requires b.verifier !in Supporters(cast) && b.verifier !in Opponents(cast)
    requires Supporters(cast) + Opponents(cast) <= w.registry.verifiers
    ensures var w' := Cast(w, id, b, now);
            && Inv(w') && id in w'.masjidById && w'.Board(id) == w.Board(id) && w'.registry == w.registry
            && Tracks(w', id, cast + [b])
  {
    hide Inv, Attest, I.WellFormedBoard, Supporters, Opponents;
    if w.Get(id).status == Pending {
      SubsetCardinality(Supporters(cast) + {b.verifier}, w.registry.verifiers);
      SubsetCardinality(Opponents(cast) + {b.verifier}, w.registry.verifiers);
      PendingVoteCommits(w, id, b, now);
      CallerIsNotZero(w, b.verifier);
      AttestKeepsInv(w, b.verifier, now, id, b.support);
      AttestEffect(w, b.verifier, now, id, b.support);
      PendingTracks(w, Cast(w, id, b, now), id, cast, b);
    } else {
      DecidedStaysDecided(w, id, cast, b, now);
    }
  }

  /** On a well-formed board every first vote of a verifier on a pending masjid commits. */
  lemma PendingVoteCommits(w: State, id: MasjidId, b: Ballot, now: Timestamp)
    requires Inv(w) && id in w.masjidById && w.Get(id).status == Pending && I.WellFormedBoard(w.Board(id))
    requires b.verifier in w.registry.verifiers && b.verifier !in w.HasAttested(id)
    requires w.Get(id).attestYes < MAX_UINT32 && w.Get(id).attestNo < MAX_UINT32
    ensures Attest(w, b.verifier, now, id, b.support).Ok?
  {
    hide RegistryInv, NamesInv, BlanksInv, DeploymentsInv, Verify, RecordVote, VotesInv, MirrorInv, I.WellFormedBoard;
    CallerIsNotZero(w, b.verifier);
    RecordVoteMasjid(w, b.verifier, now, id, b.support);
    RecordVoteFacts(w, b.verifier, now, id, b.support);
    VerifyDeploys(RecordVote(w, b.verifier, now, id, b.support), now, id);
  }

  lemma {:induction false} CastAllTracks(w: State, id: MasjidId, bs: seq<Ballot>, times: seq<Timestamp>)
    requires Inv(w) && id in w.masjidById && I.WellFormedBoard(w.Board(id))
    requires w.Get(id).status == Pending && w.Attesters(id) == []
    requires |bs| == |times| && DistinctVoters(bs)
    requires Supporters(bs) + Opponents(bs) <= w.registry.verifiers && |w.registry.verifiers| <= MAX_UINT32
    ensures var w' := CastAll(w, id, bs, times);
            && Inv(w') && id in w'.masjidById && w'.Board(id) == w.Board(id) && w'.registry == w.registry
            && Tracks(w', id, bs)
    decreases |bs|
  {
    hide Inv, Cast, I.WellFormedBoard, Tracks, Supporters, Opponents, DistinctVoters;
    if bs == [] {
      NothingCastTracks(w, id, bs);
    } else {
      var init, b := bs[..|bs| - 1], bs[|bs| - 1];
      LastBallot(bs);
      CastAllTracks(w, id, init, times[..|bs| - 1]);
      CastTracks(CastAll(w, id, init, times[..|bs| - 1]), id, init, b, times[|bs| - 1]);
    }
  }

  lemma NothingCastTracks(w: State, id: MasjidId, bs: seq<Ballot>)
    requires Inv(w) && id in w.masjidById && w.Get(id).status == Pending && w.Attesters(id) == [] && bs == []
    ensures Tracks(w, id, bs)
  {
  }

  lemma LastBallot(bs: seq<Ballot>)
    requires bs != [] && DistinctVoters(bs)
    ensures var init, b := bs[..|bs| - 1], bs[|bs| - 1];
            && bs == init + [b] && DistinctVoters(init)
            && b.verifier !in Supporters(init) && b.verifier !in Opponents(init)
            && Supporters(bs) == Supporters(init) + (if b.support then {b.verifier} else {})
            && Opponents(bs) == Opponents(init) + (if b.support then {} else {b.verifier})
  {
  }

  lemma NoVotesYet(w: State, id: MasjidId)
    requires Inv(w) && id in w.masjidById && w.Attesters(id) == []
    ensures w.Get(id).attestYes == 0 && w.Get(id).attestNo == 0 && w.HasAttested(id) == {}
  {
  }

  lemma {:induction false} SidesAddUp(bs: seq<Ballot>)
    requires DistinctVoters(bs)
    ensures |Supporters(bs)| + |Opponents(bs)| == |bs|
    ensures Supporters(bs) !! Opponents(bs)
  {
    if bs == [] {
    } else {
      LastBallot(bs);
      SidesAddUp(bs[..|bs| - 1]);
    }
  }

  /** Once each of the n verifiers has voted, in whatever order and at whatever times, a masjid with a
      well-formed board is verified iff at least n/2 + 1 of them supported it, rejected iff at least
      n/2 + 1 opposed it, and still pending iff the vote is an exact tie. */
  lemma VoteOrderDoesNotMatter(w: State, id: MasjidId, bs: seq<Ballot>, times: seq<Timestamp>)
    requires Inv(w) && id in w.masjidById && I.WellFormedBoard(w.Board(id))
    requires w.Get(id).status == Pending && w.Attesters(id) == []
    requires |bs| == |times| && DistinctVoters(bs)
    requires Supporters(bs) + Opponents(bs) == w.registry.verifiers && |w.registry.verifiers| <= MAX_UINT32
    ensures var n := |w.registry.verifiers|;
            var status := CastAll(w, id, bs, times).Get(id).status;
            && (status == Verified <==> |Supporters(bs)| >= n / 2 + 1)
            && (status == Rejected <==> |Opponents(bs)| >= n / 2 + 1)
            && (status == Pending <==> |Supporters(bs)| == |Opponents(bs)|)
  {
    hide MasjidsInv, NamesInv, BlanksInv, DeploymentsInv, CastAll, I.WellFormedBoard;
    CastAllTracks(w, id, bs, times);
    SidesAddUp(bs);
    assert |Supporters(bs) + Opponents(bs)| == |Supporters(bs)| + |Opponents(bs)|;
  }

  // ---- A moving voter set -------------------------------------------------------------------

  /** While pending, only current verifiers have voted and neither side has reached the quorum. */
  ghost predicate QuorumSafe(w: State, id: MasjidId) {
    w.Get(id).status == Pending ==>
      && w.HasAttested(id) <= w.registry.verifiers
      && w.Get(id).attestYes < w.registry.Quorum()
      && w.Get(id).attestNo < w.registry.Quorum()
  }

  lemma RegistryOnlyGrows(w: State, tx: Tx)
    requires Inv(w) && ValidTx(tx) && !tx.call.CallRemoveVerifier?
    ensures w.registry.verifiers <= Next(w, tx).registry.verifiers
    ensures w.registry.Quorum() <= Next(w, tx).registry.Quorum()
  {
    hide Inv, Attest, TransferAdmin, SetStatus, I.Execute, Register, AddVerifier, TransferAuthority;
    if Execute(w, tx).Ok? {
      match tx.call
      case CallTransferAuthority(_) => RegistryCallGrows(w, tx);
      case CallAddVerifier(_) => RegistryCallGrows(w, tx);
      case CallRegister(name, uri, coin, board) => RegisterFrame(w, tx.caller, tx.now, name, uri, coin, board);
      case CallAttest(id, support) => AttestEffect(w, tx.caller, tx.now, id, support);
      case CallTransferAdmin(id, newAdmin) => TransferAdminKeepsRegistry(w, tx.caller, tx.now, id, newAdmin);
      case CallFlag(id) => SetStatusKeepsRegistry(w, tx.now, id, Flagged);
      case CallUnflag(id) => SetStatusKeepsRegistry(w, tx.now, id, Verified);
      case CallRevoke(id) => SetStatusKeepsRegistry(w, tx.now, id, Revoked);
      case _ =>
    }
  }

  lemma RegistryCallGrows(w: State, tx: Tx)
    requires ValidTx(tx) && (tx.call.CallTransferAuthority? || tx.call.CallAddVerifier?)
    ensures w.registry.verifiers <= Next(w, tx).registry.verifiers
    ensures w.registry.Quorum() <= Next(w, tx).registry.Quorum()
  {
  }

  lemma TransferAdminKeepsRegistry(w: State, caller: Address, now: Timestamp, id: MasjidId, newAdmin: Address)
    requires TransferAdmin(w, caller, now, id, newAdmin).Ok?
    ensures TransferAdmin(w, caller, now, id, newAdmin).value.state.registry == w.registry
  {
    hide I.SetAdmin;
  }

  lemma SetStatusKeepsRegistry(w: State, now: Timestamp, id: MasjidId, status: Status)
    requires SetStatus(w, now, id, status, Mirrored(status)).Ok?
    ensures SetStatus(w, now, id, status, Mirrored(status)).value.state.registry == w.registry
  {
    hide I.SetStatus;
  }

  /** A step other than a removal, or one taken while `id` is not pending, keeps `id` safe. */
  lemma StepKeepsQuorumSafe(w: State, tx: Tx, id: MasjidId)
    requires Inv(w) && ValidTx(tx) && QuorumSafe(w, id)
    requires w.Get(id).status == Pending ==> !tx.call.CallRemoveVerifier?
    ensures QuorumSafe(Next(w, tx), id)
  {
    hide Inv, Execute, State.Board;
    var w' := Next(w, tx);
    StepEffect(w, tx, id);
    if w'.Get(id).status == Pending {
      if w.Get(id).status == Pending {
        RegistryOnlyGrows(w, tx);
        if VoteOn(w, tx, id) { VoteIsTheAttest(w, tx); AttestEffect(w, tx.caller, tx.now, id, tx.call.support); }
      } else {
        FreshIsUnvoted(w', w, tx, id);
      }
    }
  }

  lemma VoteIsTheAttest(w: State, tx: Tx)
    requires ValidTx(tx) && tx.call.CallAttest? && Execute(w, tx).Ok?
    ensures Attest(w, tx.caller, tx.now, tx.call.id, tx.call.support).Ok?
    ensures Next(w, tx) == Attest(w, tx.caller, tx.now, tx.call.id, tx.call.support).value.state
  {
    hide Attest;
  }

  lemma FreshIsUnvoted(w': State, w: State, tx: Tx, id: MasjidId)
    requires Inv(w) && ValidTx(tx) && w' == Next(w, tx) && JustRegistered(w', id)
    ensures w'.HasAttested(id) == {} && w'.Get(id).attestYes == 0 && w'.Get(id).attestNo == 0
  {
    hide Inv, Execute;
    StepKeepsInv(w, tx);
    NoVotesYet(w', id);
  }

  /** Along any run in which no verifier is removed while masjid `id` is pending, its attesters are
      current verifiers and both tallies stay below the quorum for as long as it is pending. */
  lemma {:induction false} AddOnlyQuorumSafety(ws: seq<State>, txs: seq<Tx>, n: nat, id: MasjidId)
    requires IsRun(ws, txs) && n <= |txs|
    requires forall i :: 0 <= i < n && ws[i].Get(id).status == Pending ==> !txs[i].call.CallRemoveVerifier?
    ensures QuorumSafe(ws[n], id)
  {
    hide Execute, Inv;
    if n == 0 {
    } else {
      AddOnlyQuorumSafety(ws, txs, n - 1, id);
      RunKeepsInv(ws, txs, n - 1);
      StepKeepsQuorumSafe(ws[n - 1], txs[n - 1], id);
    }
  }

  /** In such a state at most one side can reach the quorum with the next vote, and only the side voted
      for, so testing yes before no decides nothing: a no vote never verifies. */
  lemma OnlyTheVotedSideCanWin(w: State, caller: Address, now: Timestamp, id: MasjidId, support: bool)
    requires Inv(w) && QuorumSafe(w, id) && Attest(w, caller, now, id, support).Ok?
    ensures var w' := Attest(w, caller, now, id, support).value.state;
            && (w'.Get(id).status == Verified ==> support)
            && (w'.Get(id).status == Rejected ==> !support)
            && !(w'.Get(id).attestYes >= w.registry.Quorum() && w'.Get(id).attestNo >= w.registry.Quorum())
  {
    hide Inv, Attest;
    AttestEffect(w, caller, now, id, support);
  }

  /** Without that restriction the order of the two tests matters exactly when the side not voted for has
      already reached a quorum lowered by removals. */
  lemma VoteDecidesForTheOtherSideExactlyWhen(w: State, caller: Address, now: Timestamp, id: MasjidId, support: bool)
    requires Inv(w) && Attest(w, caller, now, id, support).Ok?
    ensures var w' := Attest(w, caller, now, id, support).value.state;
            var m, quorum := w.Get(id), w.registry.Quorum();
            && (w'.Get(id).status == Verified && !support <==> !support && m.attestYes >= quorum)
            && (w'.Get(id).status == Rejected && support
                <==> support && m.attestYes + 1 < quorum && m.attestNo >= quorum)
  {
    hide Inv, Attest;
    AttestEffect(w, caller, now, id, support);
  }
}
