/** The tables, column by column, said without the logs: after any run each group of columns holds what the last
    committed call about it made it, with the caller and the block time of that call. */
module Rows {
  import opened Types
  import opened Projection
  import opened Replay
  import opened Refinement
  import opened Disclosure
  import W = World
  import WS = WorldSafety
  import G = Governance
  import S = Stewardship
  import H = Histories
  import I = Instance
  import Safety = InstanceSafety

  // ---- What a call says about a column ------------------------------------------------------

  predicate Stored(w: W.State, a: Address, n: nat) { a in w.instances && n in w.instances[a].cashOutById }

  function Request(w: W.State, a: Address, n: nat): I.CashOut {
    if a in w.instances then w.instances[a].Request(n) else I.NO_REQUEST
  }

  function Approvers(w: W.State, a: Address, n: nat): set<Address> {
    if a in w.instances then w.instances[a].Approvers(n) else {}
  }

  /** What a committed transaction, taking the contracts from `w` to `w'`, says about a group of columns. */
  function Says(w: W.State, tx: W.Tx, w': W.State, c: Cell): Option<Content> {
    match c
    case AttestOf(id, v) =>
      var m := w'.Get(id);
      if tx.call.CallAttest? && v in w'.HasAttested(id) - w.HasAttested(id)
      then Some(AttestIs(AttestRow(tx.call.support, m.attestYes, m.attestNo, Wrap64(tx.now)))) else None
    case RequestTermsOf(_, _) => RequestSays(w, tx, w', c)
    case ExecutionOf(_, _) => RequestSays(w, tx, w', c)
    case CancellationOf(_, _) => RequestSays(w, tx, w', c)
    case SettledAtOf(_, _) => RequestSays(w, tx, w', c)
    case VoteOf(a, n, v) =>
      if v in Approvers(w', a, n) - Approvers(w, a, n)
      then Some(VoteIs(VoteRow(|Approvers(w', a, n)|, Wrap64(tx.now)))) else None
    case _ =>
      if c.id !in w'.masjidById then None
      else if c.id !in w.masjidById then RegistrationSays(tx, c) else MasjidSays(w.Get(c.id), tx.now, w'.Get(c.id), c)
  }

  /** A new masjid: what its registration asked for, and nothing else yet. */
  function RegistrationSays(tx: W.Tx, c: Cell): Option<Content> {
    match c
    case TermsOf(_) =>
      if !tx.call.CallRegister? then None
      else Some(MasjidTermsIs(MasjidTerms(
        Keccak(tx.call.masjidName), tx.caller, tx.caller, tx.call.stablecoin, tx.call.masjidName, tx.call.metadataUri,
        |tx.call.board| / 2 + 1, Wrap64(tx.now))))
    case StatusOf(_) => Some(StatusIs("pending"))
    case CountsOf(_) => Some(CountsAre(0, 0))
    case InstanceOf(_) => Some(InstanceIs(None))
    case VerifiedAtOf(_) => Some(TimeIs(None))
    case _ => None
  }

  /** A registered masjid: what changed. */
  function MasjidSays(m: W.Masjid, now: nat, m': W.Masjid, c: Cell): Option<Content> {
    match c
    case StatusOf(_) => if m'.status != m.status then Some(StatusIs(StatusStr(m'.status))) else None
    case CountsOf(_) =>
      if (m'.attestYes, m'.attestNo) != (m.attestYes, m.attestNo)
      then Some(CountsAre(m'.attestYes, m'.attestNo)) else None
    case InstanceOf(_) => if m'.instance != m.instance then Some(InstanceIs(Some(m'.instance))) else None
    case VerifiedAtOf(_) =>
      if m.status != W.Verified && m'.status == W.Verified then Some(TimeIs(Some(Wrap64(now)))) else None
    case _ => None
  }

  /** A request: what its proposal asked for, or who settled it just now. */
  function RequestSays(w: W.State, tx: W.Tx, w': W.State, c: Cell): Option<Content>
    requires c.RequestTermsOf? || c.ExecutionOf? || c.CancellationOf? || c.SettledAtOf?
  {
    var before, after := Request(w, c.a, c.n), Request(w', c.a, c.n);
    var isNew := Stored(w', c.a, c.n) && !Stored(w, c.a, c.n);
    match c
    case RequestTermsOf(a, _) =>
      if isNew && H.IsProposal(tx, a) then Some(RequestTermsAre(TermsAsked(H.Proposal(tx)))) else None
    case ExecutionOf(_, _) =>
      if isNew then Some(FlagIs(false, None))
      else if after.executed && !before.executed then Some(FlagIs(true, Some(tx.caller))) else None
    case CancellationOf(_, _) =>
      if isNew then Some(FlagIs(false, None))
      else if after.canceled && !before.canceled then Some(FlagIs(true, Some(tx.caller))) else None
    case SettledAtOf(_, _) =>
      if isNew then Some(TimeIs(None))
      else if (after.executed && !before.executed) || (after.canceled && !before.canceled)
      then Some(TimeIs(Some(Wrap64(tx.now)))) else None
  }

  function TermsAsked(tx: I.Tx): RequestTerms
    requires tx.call.CallPropose?
  {
    var c := tx.call;
    RequestTerms(c.to, c.amount, c.noteHash, tx.caller, Wrap64((tx.now + c.expiresInSeconds) % TWO_64), Wrap64(tx.now))
  }

  // ---- What the logs of a call write --------------------------------------------------------

  function Written(events: seq<W.Event>, now: nat, c: Cell): Option<Content> {
    LastIn(Stamp(events, now), 0, |events|, c)
  }

  lemma IgnoredWriteNothing(events: seq<W.Event>, now: nat, c: Cell)
    requires forall i :: 0 <= i < |events| ==> Ignored(events[i])
    ensures Written(events, now, c) == None
  {
    hide Ignored, Writes;
    forall p | 0 <= p < |events| ensures Writes(Stamp(events, now)[p], c) == None {
      IgnoredWritesNothing(events[p], now, c);
    }
    NothingWritten(Stamp(events, now), 0, |events|, c);
  }

  lemma IgnoredWritesNothing(e: W.Event, now: nat, c: Cell)
    requires Ignored(e)
    ensures Writes(Stamped(e, now), c) == None
  {
  }

  lemma LastWrites(events: seq<W.Event>, e: W.Event, now: nat, c: Cell)
    ensures Written(events + [e], now, c)
            == if Writes(Stamped(e, now), c).Some? then Writes(Stamped(e, now), c) else Written(events, now, c)
  {
    hide Writes;
    assert Stamp(events + [e], now)[..|events|] == Stamp(events, now);
    LastInPrefix(Stamp(events + [e], now), |events|, |events|, c);
  }

  lemma OneWrites(e: W.Event, now: nat, c: Cell)
    ensures Written([e], now, c) == Writes(Stamped(e, now), c)
  {
    hide Writes;
    LastWrites([], e, now, c);
    assert [] + [e] == [e];
  }

  lemma {:induction false} LastInSuffix(a: seq<Log>, b: seq<Log>, hi: nat, c: Cell)
    requires hi <= |b|
    ensures LastIn(a + b, |a|, |a| + hi, c) == LastIn(b, 0, hi, c)
  {
    hide Writes;
    if hi == 0 {
    } else {
      LastInSuffix(a, b, hi - 1, c);
    }
  }

  lemma WrittenInTwo(a: seq<W.Event>, b: seq<W.Event>, now: nat, c: Cell)
    ensures Written(a + b, now, c) == if Written(b, now, c).Some? then Written(b, now, c) else Written(a, now, c)
  {
    hide Writes;
    var x, y := Stamp(a, now), Stamp(b, now);
    assert Stamp(a + b, now) == x + y && (x + y)[..|x|] == x;
    LastInSplits(x + y, 0, |x|, |x + y|, c);
    LastInSuffix(x, y, |y|, c);
    LastInPrefix(x + y, |x|, |x|, c);
  }

  // ---- Call by call -------------------------------------------------------------------------

  predicate OfMasjid(c: Cell) {
    c.TermsOf? || c.StatusOf? || c.CountsOf? || c.InstanceOf? || c.VerifiedAtOf? || c.AttestOf?
  }

  /** No request of any instance moves; new instances have none. */
  ghost predicate RequestsRest(w: W.State, w': W.State) {
    forall a, n: nat :: Request(w', a, n) == Request(w, a, n) && Approvers(w', a, n) == Approvers(w, a, n)
                        && (Stored(w', a, n) <==> Stored(w, a, n))
  }

  lemma NothingSaidOfRequests(w: W.State, tx: W.Tx, w': W.State, c: Cell)
    requires RequestsRest(w, w') && !OfMasjid(c)
    ensures Says(w, tx, w', c) == None
  {
  }

  /** No masjid's status, tallies, instance or votes move. */
  ghost predicate MasjidRests(w: W.State, w': W.State, id: MasjidId) {
    && (id in w'.masjidById <==> id in w.masjidById) && w'.HasAttested(id) == w.HasAttested(id)
    && var m, m' := w.Get(id), w'.Get(id);
    (m'.status, m'.attestYes, m'.attestNo, m'.instance) == (m.status, m.attestYes, m.attestNo, m.instance)
  }

  lemma NothingSaidOfMasjid(w: W.State, tx: W.Tx, w': W.State, c: Cell)
    requires OfMasjid(c) && MasjidRests(w, w', c.id)
    ensures Says(w, tx, w', c) == None
  {
  }

  lemma SameInstancesRest(w: W.State, w': W.State)
    requires w'.instances == w.instances
    ensures RequestsRest(w, w')
  {
  }

  lemma CalledInstanceRests(w: W.State, w': W.State, a: Address)
    requires a in w.instances && a in w'.instances && w'.instances == w.instances[a := w'.instances[a]]
    requires Safety.SameRequests(w.instances[a], w'.instances[a])
    ensures RequestsRest(w, w')
  {
    assert forall n: nat :: w'.instances[a].Approvers(n) == w.instances[a].Approvers(n);
  }

  lemma RegistrySays(w: W.State, tx: W.Tx, c: Cell)
    requires W.ValidTx(tx) && S.OnRegistry(tx.call)
    ensures Written(W.Logs(w, tx), tx.now, c) == None == Says(w, tx, W.Next(w, tx), c)
  {
    hide Says, Writes;
    var w' := W.Next(w, tx);
    IgnoredWriteNothing(W.Logs(w, tx), tx.now, c);
    S.RegistryCall(w, tx);
    SameInstancesRest(w, w');
    if OfMasjid(c) { NothingSaidOfMasjid(w, tx, w', c); } else { NothingSaidOfRequests(w, tx, w', c); }
  }

  lemma RegisterSays(w: W.State, tx: W.Tx, c: Cell)
    requires WS.Inv(w) && W.ValidTx(tx) && tx.call.CallRegister? && W.Execute(w, tx).Ok?
    ensures Written(W.Logs(w, tx), tx.now, c) == Says(w, tx, W.Next(w, tx), c)
  {
    hide WS.RegistryInv, WS.MasjidInv, WS.NamesInv, WS.DeploymentsInv, InstanceWrites;
    var w', id := W.Next(w, tx), IdHash(w.masjidNonce + 1, tx.caller, Keccak(tx.call.masjidName));
    WS.RegisterIsFresh(w, tx.caller, tx.call.masjidName);
    OneWrites(W.Logs(w, tx)[0], tx.now, c);
    assert W.Logs(w, tx) == [W.Logs(w, tx)[0]];
    if OfMasjid(c) {
      if c.id != id || c.AttestOf? { OtherRegistrationSays(w, tx, w', id, c); }
    } else {
      SameInstancesRest(w, w');
      NothingSaidOfRequests(w, tx, w', c);
    }
  }

  lemma OtherRegistrationSays(w: W.State, tx: W.Tx, w': W.State, id: MasjidId, c: Cell)
    requires OfMasjid(c) && (c.id != id || c.AttestOf?) && tx.call.CallRegister? && w'.hasAttested == w.hasAttested
    requires w'.masjidById == w.masjidById[id := w'.Get(id)]
    ensures Says(w, tx, w', c) == None
  {
  }

  lemma TransferAdminSays(w: W.State, tx: W.Tx, c: Cell)
    requires W.ValidTx(tx) && tx.call.CallTransferAdmin? && W.Execute(w, tx).Ok? && tx.call.id in w.masjidById
    ensures Written(W.Logs(w, tx), tx.now, c) == None == Says(w, tx, W.Next(w, tx), c)
  {
    hide Says, Writes;
    var w', id := W.Next(w, tx), tx.call.id;
    IgnoredWriteNothing(W.Logs(w, tx), tx.now, c);
    CalledInstanceRests(w, w', w.Get(id).instance);
    if OfMasjid(c) { NothingSaidOfMasjid(w, tx, w', c); } else { NothingSaidOfRequests(w, tx, w', c); }
  }

  lemma SetStatusSays(w: W.State, tx: W.Tx, id: MasjidId, status: W.Status, mirrored: I.Verification, c: Cell)
    requires W.SetStatus(w, tx.now, id, status, mirrored).Ok? && id in w.masjidById && w.Get(id).status != status
    ensures var r := W.SetStatus(w, tx.now, id, status, mirrored).value;
            Written(r.logs, tx.now, c) == Says(w, tx, r.state, c)
  {
    hide Says, Writes, Ignored, I.SetStatus;
    var r := W.SetStatus(w, tx.now, id, status, mirrored).value;
    var ignored, last := r.logs[..|r.logs| - 1], W.MasjidStatusUpdated(id, w.Get(id).status, status);
    var w1 := w.WithMasjid(id, w.Get(id).(status := status, updatedAt := tx.now));
    SetStatusLogs(w1, tx.now, w.Get(id).instance, mirrored);
    SetInstanceStatusIsQuiet(w1, tx.now, w.Get(id).instance, mirrored);
    assert r.logs == ignored + [last];
    IgnoredWriteNothing(ignored, tx.now, c);
    LastWrites(ignored, last, tx.now, c);
    StatusChangeSays(w, tx, r.state, id, status, c);
  }

  lemma StatusChangeSays(w: W.State, tx: W.Tx, w': W.State, id: MasjidId, status: W.Status, c: Cell)
    requires id in w.masjidById && w.Get(id).status != status
    requires w'.masjidById == w.masjidById[id := w.Get(id).(status := status, updatedAt := tx.now)]
    requires w'.hasAttested == w.hasAttested
    requires w.Get(id).instance in w.instances && w.Get(id).instance in w'.instances
    requires w'.instances == w.instances[w.Get(id).instance := w'.instances[w.Get(id).instance]]
    requires Safety.SameRequests(w.instances[w.Get(id).instance], w'.instances[w.Get(id).instance])
    ensures Writes(Stamped(W.MasjidStatusUpdated(id, w.Get(id).status, status), tx.now), c) == Says(w, tx, w', c)
  {
    hide InstanceWrites;
    if !OfMasjid(c) {
      CalledInstanceRests(w, w', w.Get(id).instance);
      NothingSaidOfRequests(w, tx, w', c);
    }
  }

  // ---- Votes --------------------------------------------------------------------------------

  lemma VoteSays(w: W.State, tx: W.Tx, id: MasjidId, support: bool, c: Cell)
    requires tx.call == W.CallAttest(id, support) && id in w.masjidById && tx.caller !in w.HasAttested(id)
    ensures var w1 := W.RecordVote(w, tx.caller, tx.now, id, support);
            var vote := W.MasjidAttested(id, tx.caller, support, w1.Get(id).attestYes, w1.Get(id).attestNo);
            Writes(Stamped(vote, tx.now), c) == Says(w, tx, w1, c)
  {
    hide InstanceWrites, W.RecordVote, ReadMasjid, ReadRequest;
    var w1 := W.RecordVote(w, tx.caller, tx.now, id, support);
    WS.RecordVoteFacts(w, tx.caller, tx.now, id, support);
    if OfMasjid(c) {
      if c.id != id { G.RecordVoteElsewhere(w, tx.caller, tx.now, id, support, c.id); }
    } else {
      SameInstancesRest(w, w1);
      NothingSaidOfRequests(w, tx, w1, c);
    }
  }

  lemma RejectionSays(w: W.State, tx: W.Tx, id: MasjidId, attesters: seq<Address>, c: Cell)
    requires id in w.masjidById && w.Get(id).status == W.Pending
    ensures var m := w.Get(id);
            var w' := w.WithMasjid(id, m.(status := W.Rejected, updatedAt := tx.now));
            Writes(Stamped(W.MasjidRejected(id, attesters, m.attestYes, m.attestNo), tx.now), c) == Says(w, tx, w', c)
  {
    hide InstanceWrites;
    var w' := w.WithMasjid(id, w.Get(id).(status := W.Rejected, updatedAt := tx.now));
    if !OfMasjid(c) {
      SameInstancesRest(w, w');
      NothingSaidOfRequests(w, tx, w', c);
    }
  }

  lemma VerificationSays(w: W.State, tx: W.Tx, id: MasjidId, c: Cell)
    requires WS.Inv(w) && id in w.masjidById && w.Get(id).status == W.Pending && W.Verify(w, tx.now, id).Ok?
    ensures var r := W.Verify(w, tx.now, id).value; Written(r.logs, tx.now, c) == Says(w, tx, r.state, c)
  {
    hide WS.Inv, W.Verify, Says, Writes, Ignored;
    var r := W.Verify(w, tx.now, id).value;
    VerifyLogs(w, tx.now, id);
    var ignored, last := r.logs[..|r.logs| - 1], r.logs[|r.logs| - 1];
    assert r.logs == ignored + [last];
    IgnoredWriteNothing(ignored, tx.now, c);
    LastWrites(ignored, last, tx.now, c);
    if OfMasjid(c) {
      G.VerifyEffect(w, tx.now, id);
      VerifiedMasjidSays(w, tx, r.state, id, w.Attesters(id), c);
    } else {
      DeploymentRests(w, tx.now, id);
      NothingSaidOfRequests(w, tx, r.state, c);
      VerifiedIsOfMasjid(last, tx.now, c);
    }
  }

  lemma VerifiedIsOfMasjid(e: W.Event, now: nat, c: Cell)
    requires e.MasjidVerified? && !OfMasjid(c)
    ensures Writes(Stamped(e, now), c) == None
  {
  }

  lemma VerifiedMasjidSays(w: W.State, tx: W.Tx, w': W.State, id: MasjidId, attesters: seq<Address>, c: Cell)
    requires OfMasjid(c) && id in w.masjidById && id in w'.masjidById
    requires var m := w.Get(id);
             && m.status == W.Pending && m.instance == Zero
             && w'.Get(id) == m.(instance := Deployed(w.deployments), status := W.Verified, updatedAt := tx.now)
    requires w'.HasAttested(id) == w.HasAttested(id)
    requires forall k :: k != id ==> (k in w'.masjidById <==> k in w.masjidById) && w'.Get(k) == w.Get(k)
                                     && G.SameVotes(w, w', k)
    ensures var m := w.Get(id);
            var verified := W.MasjidVerified(id, Deployed(w.deployments), attesters, m.attestYes, m.attestNo);
            Writes(Stamped(verified, tx.now), c) == Says(w, tx, w', c)
  {
    if c.id != id {
      assert G.SameVotes(w, w', c.id);
      NothingSaidOfMasjid(w, tx, w', c);
    }
  }

  lemma DeploymentRests(w: W.State, now: Timestamp, id: MasjidId)
    requires WS.Inv(w) && id in w.masjidById && w.Get(id).status == W.Pending && W.Verify(w, now, id).Ok?
    ensures RequestsRest(w, W.Verify(w, now, id).value.state)
  {
    hide WS.Inv, W.Verify, I.Construct;
    var m, w', deployed := w.Get(id), W.Verify(w, now, id).value.state, Deployed(w.deployments);
    VerifiedTerms(w, id);
    WS.VerifyShape(w, now, id);
    BornWithoutRequests(id, m.proposer, m.stablecoin, w.Board(id), m.cashOutThreshold, now);
  }

  /** The vote first, then what it decides. */
  lemma VoteThenDecision(w: W.State, tx: W.Tx, w1: W.State, w': W.State, id: MasjidId, c: Cell)
    requires id in w.masjidById && id in w1.masjidById && id in w'.masjidById
    requires RequestsRest(w, w1) && RequestsRest(w1, w')
    requires forall k :: (k in w'.masjidById <==> k in w.masjidById) && (k in w1.masjidById <==> k in w.masjidById)
    requires forall k :: w'.HasAttested(k) == w1.HasAttested(k)
    requires forall k :: (w'.Get(k).attestYes, w'.Get(k).attestNo) == (w1.Get(k).attestYes, w1.Get(k).attestNo)
    requires forall k :: (w1.Get(k).status, w1.Get(k).instance) == (w.Get(k).status, w.Get(k).instance)
    ensures Says(w, tx, w', c) == if Says(w1, tx, w', c).Some? then Says(w1, tx, w', c) else Says(w, tx, w1, c)
  {
    if !OfMasjid(c) {
      NothingSaidOfRequests(w, tx, w1, c);
      NothingSaidOfRequests(w1, tx, w', c);
      RestsTwice(w, w1, w');
      NothingSaidOfRequests(w, tx, w', c);
    }
  }

  lemma RestsTwice(w: W.State, w1: W.State, w': W.State)
    requires RequestsRest(w, w1) && RequestsRest(w1, w')
    ensures RequestsRest(w, w')
  {
  }

  lemma VoteIsCalm(w: W.State, caller: Address, now: Timestamp, id: MasjidId, support: bool)
    requires id in w.masjidById
    ensures var w1 := W.RecordVote(w, caller, now, id, support);
            && (forall k :: k in w1.masjidById <==> k in w.masjidById) && RequestsRest(w, w1)
            && forall k :: (w1.Get(k).status, w1.Get(k).instance) == (w.Get(k).status, w.Get(k).instance)
  {
  }

  lemma AttestSays(w: W.State, tx: W.Tx, c: Cell)
    requires WS.Inv(w) && W.ValidTx(tx) && tx.call.CallAttest? && W.Execute(w, tx).Ok?
    ensures Written(W.Logs(w, tx), tx.now, c) == Says(w, tx, W.Next(w, tx), c)
  {
    hide WS.Inv, W.Verify, W.RecordVote, Says, Writes, RequestsRest;
    hide W.Register, W.TransferAdmin, W.SetStatus, I.Execute, W.AddVerifier, W.RemoveVerifier;
    var id, support, w' := tx.call.id, tx.call.support, W.Next(w, tx);
    var w1 := W.RecordVote(w, tx.caller, tx.now, id, support);
    var m1 := w1.Get(id);
    var vote := W.MasjidAttested(id, tx.caller, support, m1.attestYes, m1.attestNo);
    G.AttestedIsRegistered(w, tx.caller, tx.now, id, support);
    G.CallerIsNotZero(w, tx.caller);
    WS.RecordVoteFacts(w, tx.caller, tx.now, id, support);
    WS.RecordVoteKeepsInv(w, tx.caller, tx.now, id, support);
    VoteIsCalm(w, tx.caller, tx.now, id, support);
    VoteSays(w, tx, id, support, c);
    OneWrites(vote, tx.now, c);
    if m1.attestYes >= w.registry.Quorum() {
      var verified := W.Verify(w1, tx.now, id).value;
      G.VerifyEffect(w1, tx.now, id);
      DeploymentRests(w1, tx.now, id);
      forall k ensures (k in w'.masjidById <==> k in w.masjidById) && w'.HasAttested(k) == w1.HasAttested(k)
        ensures (w'.Get(k).attestYes, w'.Get(k).attestNo) == (w1.Get(k).attestYes, w1.Get(k).attestNo)
      {
        if k != id { assert G.SameVotes(w1, w', k); }
      }
      VoteThenDecision(w, tx, w1, w', id, c);
      VerificationSays(w1, tx, id, c);
      WrittenInTwo([vote], verified.logs, tx.now, c);
    } else if m1.attestNo >= w.registry.Quorum() {
      var rejection := W.MasjidRejected(id, w1.Attesters(id), m1.attestYes, m1.attestNo);
      SameInstancesRest(w1, w');
      VoteThenDecision(w, tx, w1, w', id, c);
      RejectionSays(w1, tx, id, w1.Attesters(id), c);
      LastWrites([vote], rejection, tx.now, c);
      assert W.Logs(w, tx) == [vote] + [rejection];
    }
  }

  // ---- Calls to an instance -----------------------------------------------------------------

  lemma InstanceCallSays(w: W.State, tx: W.Tx, c: Cell)
    requires WS.Inv(w) && W.ValidTx(tx) && tx.call.CallInstance? && W.Execute(w, tx).Ok?
    ensures Written(W.Logs(w, tx), tx.now, c) == Says(w, tx, W.Next(w, tx), c)
  {
    hide WS.Inv, I.Execute, Says, Writes;
    var a, w' := tx.call.instance, W.Next(w, tx);
    var s, itx := w.instances[a], I.Tx(tx.caller, tx.now, tx.call.call);
    var r := I.Execute(s, itx).value;
    H.DeployedInvOf(w, a);
    if OfMasjid(c) {
      NothingSaidOfMasjid(w, tx, w', c);
      InstanceLogsAreNotOfMasjids(a, r.logs, tx.now, c);
    } else if Safety.Governance(itx.call) {
      QuietLogs(s, itx);
      QuietCall(s, itx);
      IgnoredWriteNothing(W.Logs(w, tx), tx.now, c);
      CalledInstanceRests(w, w', a);
      NothingSaidOfRequests(w, tx, w', c);
    } else {
      RequestCallSays(w, tx, c);
    }
  }

  lemma InstanceLogsAreNotOfMasjids(a: Address, events: seq<I.Event>, now: nat, c: Cell)
    requires OfMasjid(c)
    ensures Written(W.InstanceLogs(a, events), now, c) == None
  {
    var log := Stamp(W.InstanceLogs(a, events), now);
    forall p | 0 <= p < |log| ensures Writes(log[p], c) == None {}
    NothingWritten(log, 0, |log|, c);
  }

  lemma RequestCallSays(w: W.State, tx: W.Tx, c: Cell)
    requires W.ValidTx(tx) && tx.call.CallInstance? && W.Execute(w, tx).Ok? && !OfMasjid(c)
    requires Safety.Inv(w.instances[tx.call.instance]) && !Safety.Governance(tx.call.call)
    ensures Written(W.Logs(w, tx), tx.now, c) == Says(w, tx, W.Next(w, tx), c)
  {
    hide I.Execute, Says, Writes;
    var a, s, itx := tx.call.instance, w.instances[tx.call.instance], I.Tx(tx.caller, tx.now, tx.call.call);
    var r := I.Execute(s, itx).value;
    RequestCallLogs(s, itx);
    var e := W.InstanceLog(a, r.logs[0]);
    assert W.Logs(w, tx) == [e];
    OneWrites(e, tx.now, c);
    if c.a != a {
      ElsewhereSays(w, tx, W.Next(w, tx), e, c);
    } else {
      match tx.call.call
      case CallPropose(_, _, _, _) => ProposalSays(w, tx, c);
      case CallApprove(_) => ApprovalSays(w, tx, c);
      case CallExecute(_, _) => ExecutionSays(w, tx, c);
      case CallCancel(_) => CancellationSays(w, tx, c);
    }
  }

  lemma RequestCallLogs(s: I.State, tx: I.Tx)
    requires I.ValidCall(tx.call) && !Safety.Governance(tx.call) && I.Execute(s, tx).Ok?
    ensures |I.Execute(s, tx).value.logs| == 1
  {
  }

  lemma ElsewhereSays(w: W.State, tx: W.Tx, w': W.State, e: W.Event, c: Cell)
    requires !OfMasjid(c) && e.InstanceLog? && c.a != e.instance && e.instance in w'.instances
    requires w'.instances == w.instances[e.instance := w'.instances[e.instance]]
    ensures Writes(Stamped(e, tx.now), c) == None == Says(w, tx, w', c)
  {
  }

  lemma ProposalEffect(s: I.State, tx: I.Tx, n: nat)
    requires Safety.Inv(s) && I.ValidCall(tx.call) && tx.call.CallPropose? && I.Execute(s, tx).Ok?
    ensures var c, r, s' := tx.call, s.cashOutNonce + 1, I.Next(s, tx);
            && I.Execute(s, tx).value.logs
               == [I.CashOutProposed(r, tx.caller, c.to, c.amount, c.noteHash, (tx.now + c.expiresInSeconds) % TWO_64)]
            && r !in s.cashOutById && s'.Approvers(n) == s.Approvers(n)
            && (n in s'.cashOutById <==> n in s.cashOutById || n == r)
            && s'.Request(n) == (if n == r then H.Asked(tx) else s.Request(n))
  {
  }

  lemma ApprovalEffect(s: I.State, tx: I.Tx, n: nat)
    requires Safety.Inv(s) && tx.call.CallApprove? && I.Execute(s, tx).Ok?
    ensures var r, s' := tx.call.id, I.Next(s, tx);
            && I.Execute(s, tx).value.logs == [I.CashOutApproved(r, tx.caller, |s'.Approvers(r)|)]
            && tx.caller !in s.Approvers(r)
            && (forall v :: v in s'.Approvers(n) <==> v in s.Approvers(n) || (n == r && v == tx.caller))
            && (n in s'.cashOutById <==> n in s.cashOutById)
            && s'.Request(n) == s.Request(n).(approvals := s'.Request(n).approvals)
  {
    hide I.ProposeCashOut, I.ExecuteCashOut, I.CancelCashOut, I.SetBoardMember, Safety.Inv;
    TallyIsCount(s, tx.call.id);
  }

  lemma TallyIsCount(s: I.State, r: nat)
    requires Safety.Inv(s)
    ensures s.Request(r).createdAt != 0 ==> r in s.cashOutById && s.Request(r).approvals == |s.Approvers(r)|
  {
    if r in s.cashOutById { assert Safety.RequestInv(s, r); }
  }

  lemma ExecutionEffect(s: I.State, tx: I.Tx, n: nat)
    requires tx.call.CallExecute? && I.Execute(s, tx).Ok?
    ensures var r, s' := tx.call.id, I.Next(s, tx);
            && I.Execute(s, tx).value.logs == [I.CashOutExecuted(r, tx.caller)]
            && r in s.cashOutById && !s.Request(r).executed && s'.Approvers(n) == s.Approvers(n)
            && (n in s'.cashOutById <==> n in s.cashOutById)
            && s'.Request(n) == s.Request(n).(executed := s.Request(n).executed || n == r)
  {
  }

  lemma CancellationEffect(s: I.State, tx: I.Tx, n: nat)
    requires tx.call.CallCancel? && I.Execute(s, tx).Ok?
    ensures var r, s' := tx.call.id, I.Next(s, tx);
            && I.Execute(s, tx).value.logs == [I.CashOutCanceled(r, tx.caller)]
            && r in s.cashOutById && !s.Request(r).canceled && s'.Approvers(n) == s.Approvers(n)
            && (n in s'.cashOutById <==> n in s.cashOutById)
            && s'.Request(n) == s.Request(n).(canceled := s.Request(n).canceled || n == r)
  {
  }

  /** The call to the instance, as the columns of its requests see it. */
  lemma OneInstanceMoves(w: W.State, tx: W.Tx, n: nat)
    requires W.ValidTx(tx) && tx.call.CallInstance? && W.Execute(w, tx).Ok?
    ensures var a, w' := tx.call.instance, W.Next(w, tx);
            && a in w.instances && I.Execute(w.instances[a], H.Proposal(tx)).Ok?
            && var s, s' := w.instances[a], I.Next(w.instances[a], H.Proposal(tx));
            && Request(w, a, n) == s.Request(n) && Request(w', a, n) == s'.Request(n)
            && Approvers(w, a, n) == s.Approvers(n) && Approvers(w', a, n) == s'.Approvers(n)
            && (Stored(w, a, n) <==> n in s.cashOutById) && (Stored(w', a, n) <==> n in s'.cashOutById)
            && var logs := I.Execute(s, H.Proposal(tx)).value.logs;
            |W.Logs(w, tx)| == |logs| && (logs != [] ==> W.Logs(w, tx)[0] == W.InstanceLog(a, logs[0]))
  {
    hide I.Execute;
  }

  lemma ProposalSays(w: W.State, tx: W.Tx, c: Cell)
    requires W.ValidTx(tx) && tx.call.CallInstance? && tx.call.call.CallPropose? && W.Execute(w, tx).Ok?
    requires Safety.Inv(w.instances[tx.call.instance]) && !OfMasjid(c) && c.a == tx.call.instance
    ensures W.Logs(w, tx) != [] && Writes(Stamped(W.Logs(w, tx)[0], tx.now), c) == Says(w, tx, W.Next(w, tx), c)
  {
    hide W.Execute, W.Next, W.Logs, I.Execute, I.Next, Stored, Request, Approvers, Safety.Inv;
    OneInstanceMoves(w, tx, c.n);
    ProposalEffect(w.instances[c.a], H.Proposal(tx), c.n);
    NotStoredReadsNothing(w.instances[c.a], c.n);
  }

  lemma NotStoredReadsNothing(s: I.State, n: nat)
    ensures n !in s.cashOutById ==> s.Request(n) == I.NO_REQUEST
  {
  }

  lemma ApprovalSays(w: W.State, tx: W.Tx, c: Cell)
    requires W.ValidTx(tx) && tx.call.CallInstance? && tx.call.call.CallApprove? && W.Execute(w, tx).Ok?
    requires Safety.Inv(w.instances[tx.call.instance]) && !OfMasjid(c) && c.a == tx.call.instance
    ensures W.Logs(w, tx) != [] && Writes(Stamped(W.Logs(w, tx)[0], tx.now), c) == Says(w, tx, W.Next(w, tx), c)
  {
    hide W.Execute, W.Next, W.Logs, I.Execute, I.Next, Stored, Request, Approvers, Safety.Inv;
    OneInstanceMoves(w, tx, c.n);
    OneInstanceMoves(w, tx, tx.call.call.id);
    ApprovalEffect(w.instances[c.a], H.Proposal(tx), c.n);
  }

  lemma ExecutionSays(w: W.State, tx: W.Tx, c: Cell)
    requires W.ValidTx(tx) && tx.call.CallInstance? && tx.call.call.CallExecute? && W.Execute(w, tx).Ok?
    requires !OfMasjid(c) && c.a == tx.call.instance
    ensures W.Logs(w, tx) != [] && Writes(Stamped(W.Logs(w, tx)[0], tx.now), c) == Says(w, tx, W.Next(w, tx), c)
  {
    hide W.Execute, W.Next, W.Logs, I.Execute, I.Next, Stored, Request, Approvers;
    OneInstanceMoves(w, tx, c.n);
    ExecutionEffect(w.instances[c.a], H.Proposal(tx), c.n);
  }

  lemma CancellationSays(w: W.State, tx: W.Tx, c: Cell)
    requires W.ValidTx(tx) && tx.call.CallInstance? && tx.call.call.CallCancel? && W.Execute(w, tx).Ok?
    requires !OfMasjid(c) && c.a == tx.call.instance
    ensures W.Logs(w, tx) != [] && Writes(Stamped(W.Logs(w, tx)[0], tx.now), c) == Says(w, tx, W.Next(w, tx), c)
  {
    hide W.Execute, W.Next, W.Logs, I.Execute, I.Next, Stored, Request, Approvers;
    OneInstanceMoves(w, tx, c.n);
    CancellationEffect(w.instances[c.a], H.Proposal(tx), c.n);
  }

  // ---- Every step, every run ----------------------------------------------------------------

  /** The logs of a transaction write exactly what it says. */
  lemma StepSays(w: W.State, tx: W.Tx, c: Cell)
    requires WS.Inv(w) && W.ValidTx(tx)
    ensures Written(W.Logs(w, tx), tx.now, c) == Says(w, tx, W.Next(w, tx), c)
  {
    hide WS.Inv, Says, Writes, Written, W.Attest, W.TransferAdmin, W.SetStatus, W.Register, W.AddVerifier,
         W.RemoveVerifier, W.TransferAuthority, I.Execute;
    if W.Execute(w, tx).Ok? {
      match tx.call
      case CallTransferAuthority(_) => RegistrySays(w, tx, c);
      case CallAddVerifier(_) => RegistrySays(w, tx, c);
      case CallRemoveVerifier(_) => RegistrySays(w, tx, c);
      case CallRegister(_, _, _, _) => RegisterSays(w, tx, c);
      case CallAttest(_, _) => AttestSays(w, tx, c);
      case CallTransferAdmin(id, newAdmin) =>
        WS.TransferAdminIsRegistered(w, tx.caller, tx.now, id, newAdmin);
        TransferAdminSays(w, tx, c);
      case CallFlag(id) => SetStatusSays(w, tx, id, W.Flagged, I.Flagged, c);
      case CallUnflag(id) => SetStatusSays(w, tx, id, W.Verified, I.Verified, c);
      case CallRevoke(id) => SetStatusSays(w, tx, id, W.Revoked, I.Revoked, c);
      case CallInstance(_, _) => InstanceCallSays(w, tx, c);
    } else {
      RevertSaysNothing(w, tx, c);
    }
  }

  lemma RevertSaysNothing(w: W.State, tx: W.Tx, c: Cell)
    requires W.ValidTx(tx) && W.Execute(w, tx).Revert?
    ensures Written(W.Logs(w, tx), tx.now, c) == None == Says(w, tx, W.Next(w, tx), c)
  {
    hide W.Execute;
    if !OfMasjid(c) {
      SameInstancesRest(w, w);
      NothingSaidOfRequests(w, tx, w, c);
    }
  }

  /** What the last of the first `n` steps that said something about the cell said. */
  ghost function LastSaid(ws: seq<W.State>, txs: seq<W.Tx>, n: nat, c: Cell): Option<Content>
    requires n <= |txs| < |ws|
  {
    if n == 0 then None
    else if Says(ws[n - 1], txs[n - 1], ws[n], c).Some? then Says(ws[n - 1], txs[n - 1], ws[n], c)
    else LastSaid(ws, txs, n - 1, c)
  }

  lemma {:induction false} LogsWriteWhatWasSaid(ws: seq<W.State>, txs: seq<W.Tx>, n: nat, c: Cell)
    requires W.IsRun(ws, txs) && n <= |txs|
    ensures LastIn(LogOf(ws, txs, n), 0, |LogOf(ws, txs, n)|, c) == LastSaid(ws, txs, n, c)
  {
    hide W.Execute, W.Next, W.Logs, WS.Inv, Says, Writes;
    if n == 0 {
    } else {
      var log, events, now := LogOf(ws, txs, n - 1), W.Logs(ws[n - 1], txs[n - 1]), txs[n - 1].now;
      LogsWriteWhatWasSaid(ws, txs, n - 1, c);
      WS.RunKeepsInv(ws, txs, n - 1);
      StepSays(ws[n - 1], txs[n - 1], c);
      var all := log + Stamp(events, now);
      assert all[..|log|] == log;
      LastInSplits(all, 0, |log|, |all|, c);
      LastInSuffix(log, Stamp(events, now), |events|, c);
      LastInPrefix(all, |log|, |log|, c);
    }
  }

  /** After any run every group of columns holds what the last committed call about it made it, with its caller and
      its block time, and there is no row if no call was about it. */
  lemma RowsSayWhatHappened(ws: seq<W.State>, txs: seq<W.Tx>, n: nat, c: Cell)
    requires W.IsRun(ws, txs) && n <= |txs|
    ensures Read(Apply(EMPTY, LogOf(ws, txs, n)), c) == LastSaid(ws, txs, n, c)
  {
    hide W.Next, Writes, Says, WellFormedLog, LastIn, Apply, Read;
    RunLogsAreWellFormed(ws, txs, n);
    HandledOnce(LogOf(ws, txs, n), c);
    LogsWriteWhatWasSaid(ws, txs, n, c);
  }
}
