/** The tables agree with the contracts: handling the logs of any run gives rows that say what the
    contracts' storage says. */
module Refinement {
  import opened Types
  import opened Projection
  import opened Replay
  import W = World
  import WS = WorldSafety
  import G = Governance
  import I = Instance
  import Safety = InstanceSafety

  // ---- The log of a run ---------------------------------------------------------------------

  /** A log of a transaction at time `now`, with the block time that the indexer reads as an int64. */
  function Stamped(e: W.Event, now: nat): Log { Log(e, Wrap64(now)) }

  function Stamp(events: seq<W.Event>, now: nat): seq<Log> {
    seq(|events|, i requires 0 <= i < |events| => Stamped(events[i], now))
  }

  /** Everything the first `n` transactions of a run emitted, in order. */
  ghost function LogOf(ws: seq<W.State>, txs: seq<W.Tx>, n: nat): seq<Log>
    requires W.IsRun(ws, txs) && n <= |txs|
  {
    if n == 0 then [] else LogOf(ws, txs, n - 1) + Stamp(W.Logs(ws[n - 1], txs[n - 1]), txs[n - 1].now)
  }

  /** A log no handler does anything with. */
  predicate Ignored(e: W.Event) {
    && !e.MasjidRegistered? && !UpdatesMasjid(e)
    && (e.InstanceLog? ==> !e.event.CashOutProposed? && !e.event.CashOutApproved?
                           && !e.event.CashOutExecuted? && !e.event.CashOutCanceled?)
  }

  lemma {:induction false} IgnoredLogsDoNothing(db: Db, logs: seq<Log>)
    requires forall i :: 0 <= i < |logs| ==> Ignored(logs[i].event)
    ensures Apply(db, logs) == db
    decreases |logs|
  {
    if logs == [] {
    } else {
      IgnoredLogsDoNothing(db, logs[..|logs| - 1]);
      assert Ignored(logs[|logs| - 1].event);
    }
  }

  /** One handled log after any number of ignored ones. */
  lemma IgnoredThen(db: Db, ignored: seq<W.Event>, e: W.Event, now: nat)
    requires forall i :: 0 <= i < |ignored| ==> Ignored(ignored[i])
    ensures Apply(db, Stamp(ignored + [e], now)) == Handle(db, Stamped(e, now))
  {
    hide Handle;
    assert Stamp(ignored + [e], now) == Stamp(ignored, now) + [Stamped(e, now)];
    ApplyAppends(db, Stamp(ignored, now), [Stamped(e, now)]);
    IgnoredLogsDoNothing(db, Stamp(ignored, now));
    assert [Stamped(e, now)][..0] == [];
    assert Apply(db, [Stamped(e, now)]) == Handle(Apply(db, []), Stamped(e, now));
  }

  // ---- Agreement ----------------------------------------------------------------------------

  ghost predicate MasjidMatches(m: W.Masjid, r: MasjidRow) {
    && r.terms == MasjidTerms(m.nameHash, m.proposer, m.proposer, m.stablecoin, m.masjidName, m.metadataUri,
                              m.cashOutThreshold, Wrap64(m.createdAt))
    && r.status == StatusStr(m.status)
    && r.attestYes == m.attestYes && r.attestNo == m.attestNo
    && r.instanceAddr == if m.instance == Zero then None else Some(m.instance)
  }

  /** The verifiers whose row for masjid `id` says they supported it. */
  ghost function SupportRows(db: Db, id: MasjidId): set<Address> {
    set k | k in db.attests && k.0 == id && db.attests[k].support :: k.1
  }

  /** One row per registered masjid, saying what the protocol says; one attest row per vote; and the rows
      that say support are as many as the yes votes. */
  ghost predicate MasjidAgrees(w: W.State, db: Db, id: MasjidId) {
    && (id in db.masjids <==> id in w.masjidById)
    && (id in db.masjids ==> MasjidMatches(w.Get(id), db.masjids[id]))
    && (forall v :: (id, v) in db.attests <==> v in w.HasAttested(id))
    && |SupportRows(db, id)| == w.Get(id).attestYes
  }

  ghost predicate RequestMatches(c: I.CashOut, r: RequestRow) {
    && r.terms == RequestTerms(c.to, c.amount, c.noteHash, c.proposer, Wrap64(c.expiresAt), Wrap64(c.createdAt))
    && r.executed == c.executed && r.canceled == c.canceled
    && (r.settledAt.Some? <==> c.executed || c.canceled)
  }

  /** One row per request of the instance, and one vote row per recorded approval. */
  ghost predicate RequestAgrees(s: I.State, db: Db, a: Address, n: nat) {
    && ((a, n) in db.requests <==> n in s.cashOutById)
    && ((a, n) in db.requests ==> RequestMatches(s.cashOutById[n], db.requests[(a, n)]))
    && (forall v :: (a, n, v) in db.votes <==> v in s.Approvers(n))
  }

  ghost predicate NoRequests(db: Db, a: Address) {
    && (forall n :: (a, n) !in db.requests)
    && (forall n, v :: (a, n, v) !in db.votes)
  }

  ghost predicate InstanceAgrees(w: W.State, db: Db, a: Address) {
    && (a in w.instances ==> forall n: nat :: RequestAgrees(w.instances[a], db, a, n))
    && (a !in w.instances ==> NoRequests(db, a))
  }

  ghost predicate MasjidSide(w: W.State, db: Db) { forall id :: MasjidAgrees(w, db, id) }

  ghost predicate InstanceSide(w: W.State, db: Db) { forall a :: InstanceAgrees(w, db, a) }

  ghost predicate Agrees(w: W.State, db: Db) { MasjidSide(w, db) && InstanceSide(w, db) }

  lemma InitialAgrees(w: W.State)
    requires W.Initial(w)
    ensures Agrees(w, EMPTY)
  {
  }

  /** What the two sides of the tables depend on. */
  lemma MasjidSideFrame(w: W.State, w': W.State, db: Db, db': Db, id: MasjidId)
    requires MasjidAgrees(w, db, id)
    requires (id in w'.masjidById <==> id in w.masjidById) && w'.HasAttested(id) == w.HasAttested(id)
    requires w'.Get(id) == w.Get(id).(masjidAdmin := w'.Get(id).masjidAdmin, updatedAt := w'.Get(id).updatedAt)
    requires (id in db'.masjids <==> id in db.masjids) && (id in db.masjids ==> db'.masjids[id] == db.masjids[id])
    requires forall v :: ((id, v) in db'.attests <==> (id, v) in db.attests)
                         && ((id, v) in db.attests ==> db'.attests[(id, v)] == db.attests[(id, v)])
    ensures MasjidAgrees(w', db', id)
  {
    SupportFrame(db, db', id);
  }

  lemma SupportFrame(db: Db, db': Db, id: MasjidId)
    requires forall v :: ((id, v) in db'.attests <==> (id, v) in db.attests)
                         && ((id, v) in db.attests ==> db'.attests[(id, v)] == db.attests[(id, v)])
    ensures SupportRows(db', id) == SupportRows(db, id)
  {
  }

  lemma InstanceSideFrame(w: W.State, w': W.State, db: Db, db': Db)
    requires InstanceSide(w, db) && (db'.requests, db'.votes) == (db.requests, db.votes)
    requires w'.instances.Keys == w.instances.Keys
    requires forall a :: a in w.instances ==> Safety.SameRequests(w.instances[a], w'.instances[a])
    ensures InstanceSide(w', db')
  {
    forall a ensures InstanceAgrees(w', db', a) {
      assert InstanceAgrees(w, db, a);
      if a in w.instances {
        forall n: nat ensures RequestAgrees(w'.instances[a], db', a, n) {
          assert RequestAgrees(w.instances[a], db, a, n);
          assert w'.instances[a].Approvers(n) == w.instances[a].Approvers(n);
        }
      }
    }
  }

  // ---- Call by call: the protocol -----------------------------------------------------------

  lemma RegisterAgrees(w: W.State, db: Db, caller: Address, now: Timestamp, name: string, uri: string,
                       coin: Address, board: seq<Address>)
    requires WS.Inv(w) && MasjidSide(w, db) && W.Register(w, caller, now, name, uri, coin, board).Ok?
    ensures var r := W.Register(w, caller, now, name, uri, coin, board).value;
            |r.logs| == 1 && MasjidSide(r.state, Handle(db, Stamped(r.logs[0], now)))
  {
    hide WS.RegistryInv, WS.MasjidInv, WS.NamesInv, WS.DeploymentsInv, HandleInstance, MasjidAgrees;
    var r := W.Register(w, caller, now, name, uri, coin, board).value;
    var id := IdHash(w.masjidNonce + 1, caller, Keccak(name));
    WS.RegisterIsFresh(w, caller, name);
    var db' := Handle(db, Stamped(r.logs[0], now));
    forall k ensures MasjidAgrees(r.state, db', k) {
      assert MasjidAgrees(w, db, k);
      if k == id {
        NewRowAgrees(w, r.state, db, db', id, now, board);
      } else {
        MasjidSideFrame(w, r.state, db, db', k);
      }
    }
  }

  lemma NewRowAgrees(w: W.State, w': W.State, db: Db, db': Db, id: MasjidId, now: nat, board: seq<Address>)
    requires MasjidAgrees(w, db, id) && id !in w.masjidById && id in w'.masjidById
    requires w'.HasAttested(id) == w.HasAttested(id)
    requires var m := w'.Get(id);
             && m.status == W.Pending && m.attestYes == 0 && m.attestNo == 0 && m.instance == Zero && m.createdAt == now
             && m.cashOutThreshold == |board| / 2 + 1
             && db' == db.(masjids := UpsertMasjid(db.masjids, id,
                  NewMasjid(W.MasjidRegistered(id, m.nameHash, m.proposer, m.masjidName, m.metadataUri, m.stablecoin,
                                               board),
                            Wrap64(now))))
    ensures MasjidAgrees(w', db', id)
  {
  }

  lemma NewAttestRow(db: Db, db': Db, id: MasjidId, v: Address, row: AttestRow)
    requires (id, v) !in db.attests && db'.attests == db.attests[(id, v) := row]
    ensures |SupportRows(db', id)| == |SupportRows(db, id)| + (if row.support then 1 else 0)
  {
    forall x ensures x in SupportRows(db', id) <==> x in SupportRows(db, id) || (x == v && row.support) {
      assert x in SupportRows(db', id) <==> (id, x) in db'.attests && db'.attests[(id, x)].support;
      assert x in SupportRows(db, id) <==> (id, x) in db.attests && db.attests[(id, x)].support;
    }
    assert SupportRows(db', id) == SupportRows(db, id) + (if row.support then {v} else {});
    assert v !in SupportRows(db, id);
  }

  lemma VotedRowAgrees(w: W.State, w': W.State, db: Db, id: MasjidId, v: Address, support: bool, now: nat)
    requires MasjidAgrees(w, db, id) && id in w.masjidById && id in w'.masjidById && v !in w.HasAttested(id)
    requires w'.HasAttested(id) == w.HasAttested(id) + {v}
    requires w'.Get(id) == w.Get(id).(updatedAt := w'.Get(id).updatedAt,
               attestYes := w.Get(id).attestYes + (if support then 1 else 0), attestNo := w'.Get(id).attestNo)
    ensures var m := w'.Get(id);
            MasjidAgrees(w', Handle(db, Stamped(W.MasjidAttested(id, v, support, m.attestYes, m.attestNo), now)), id)
  {
    hide HandleInstance, UpsertMasjid, UpdateStatus, UpdateVerified;
    var m := w'.Get(id);
    var db' := Handle(db, Stamped(W.MasjidAttested(id, v, support, m.attestYes, m.attestNo), now));
    NewAttestRow(db, db', id, v, AttestRow(support, m.attestYes, m.attestNo, Wrap64(now)));
  }

  lemma VoteAgrees(w: W.State, db: Db, caller: Address, now: Timestamp, id: MasjidId, support: bool)
    requires MasjidSide(w, db) && id in w.masjidById && caller !in w.HasAttested(id)
    ensures var w' := W.RecordVote(w, caller, now, id, support);
            var log := Stamped(W.MasjidAttested(id, caller, support, w'.Get(id).attestYes, w'.Get(id).attestNo), now);
            MasjidSide(w', Handle(db, log))
  {
    hide MasjidAgrees, W.RecordVote;
    var w' := W.RecordVote(w, caller, now, id, support);
    var e := W.MasjidAttested(id, caller, support, w'.Get(id).attestYes, w'.Get(id).attestNo);
    var db' := Handle(db, Stamped(e, now));
    WS.RecordVoteFacts(w, caller, now, id, support);
    assert MasjidAgrees(w, db, id);
    RowIsThere(w, db, id);
    forall k ensures MasjidAgrees(w', db', k) {
      assert MasjidAgrees(w, db, k);
      if k == id {
        VotedRowAgrees(w, w', db, id, caller, support, now);
      } else {
        G.RecordVoteElsewhere(w, caller, now, id, support, k);
        MasjidSideFrame(w, w', db, db', k);
      }
    }
  }

  lemma RowIsThere(w: W.State, db: Db, id: MasjidId)
    requires MasjidAgrees(w, db, id)
    ensures id in db.masjids <==> id in w.masjidById
  {
  }

  /** A change of one masjid's status, instance and admin, and of its row's status and instance. */
  lemma StatusRowAgrees(w: W.State, w': W.State, db: Db, db': Db, id: MasjidId)
    requires MasjidSide(w, db) && id in w.masjidById
    requires forall k :: (k in w'.masjidById <==> k in w.masjidById) && w'.HasAttested(k) == w.HasAttested(k)
    requires forall k :: k != id ==> w'.Get(k) == w.Get(k)
    requires var m, m' := w.Get(id), w'.Get(id);
             && m' == m.(status := m'.status, instance := m'.instance, updatedAt := m'.updatedAt)
             && db'.masjids.Keys == db.masjids.Keys && db'.attests == db.attests
             && (forall k :: k in db.masjids && k != id ==> db'.masjids[k] == db.masjids[k])
             && (id in db.masjids ==>
                   db'.masjids[id] == db.masjids[id].(
                     status := StatusStr(m'.status),
                     instanceAddr := if m'.instance == Zero then None else Some(m'.instance),
                     verifiedAt := db'.masjids[id].verifiedAt))
    ensures MasjidSide(w', db')
  {
    forall k ensures MasjidAgrees(w', db', k) {
      assert MasjidAgrees(w, db, k);
      assert k in db'.masjids <==> k in db.masjids;
      SupportFrame(db, db', k);
    }
  }

  lemma RejectAgrees(w: W.State, db: Db, id: MasjidId, now: Timestamp, attesters: seq<Address>, yes: nat, no: nat)
    requires MasjidSide(w, db) && id in w.masjidById && w.Get(id).instance == Zero
    ensures var w' := w.WithMasjid(id, w.Get(id).(status := W.Rejected, updatedAt := now));
            MasjidSide(w', Handle(db, Stamped(W.MasjidRejected(id, attesters, yes, no), now)))
  {
    hide UpsertMasjid, UpdateVerified, UpdateAttestCounts, HandleInstance;
    var w' := w.WithMasjid(id, w.Get(id).(status := W.Rejected, updatedAt := now));
    var db' := Handle(db, Stamped(W.MasjidRejected(id, attesters, yes, no), now));
    assert MasjidAgrees(w, db, id);
    StatusRowAgrees(w, w', db, db', id);
  }

  lemma StatusAgrees(w: W.State, db: Db, now: Timestamp, id: MasjidId, status: W.Status, mirrored: I.Verification)
    requires MasjidSide(w, db) && id in w.masjidById && W.SetStatus(w, now, id, status, mirrored).Ok?
    ensures MasjidSide(W.SetStatus(w, now, id, status, mirrored).value.state,
                       Handle(db, Stamped(W.MasjidStatusUpdated(id, w.Get(id).status, status), now)))
  {
    hide UpsertMasjid, UpdateVerified, UpdateAttestCounts, HandleInstance, I.SetStatus;
    var w' := W.SetStatus(w, now, id, status, mirrored).value.state;
    var db' := Handle(db, Stamped(W.MasjidStatusUpdated(id, w.Get(id).status, status), now));
    assert MasjidAgrees(w, db, id);
    StatusRowAgrees(w, w', db, db', id);
  }

  // ---- Call by call: votes that decide ------------------------------------------------------

  lemma DeployLogs(w: W.State, now: Timestamp, id: MasjidId, name: string, admin: Address, coin: Address,
                   board: seq<Address>, threshold: nat)
    requires W.DeployMasjid(w, Protocol, now, id, name, admin, coin, board, threshold).Ok?
    ensures var logs := W.DeployMasjid(w, Protocol, now, id, name, admin, coin, board, threshold).value.logs;
            forall i :: 0 <= i < |logs| ==> Ignored(logs[i])
  {
  }

  lemma SetStatusLogs(w: W.State, now: Timestamp, a: Address, status: I.Verification)
    requires W.SetInstanceStatus(w, now, a, status).Ok?
    ensures var logs := W.SetInstanceStatus(w, now, a, status).value.logs;
            forall i :: 0 <= i < |logs| ==> Ignored(logs[i])
  {
  }

  /** Of everything a verification emits the indexer handles one log, MasjidVerified. */
  lemma VerifyLogs(w: W.State, now: Timestamp, id: MasjidId)
    requires WS.Inv(w) && id in w.masjidById && w.Get(id).status == W.Pending && W.Verify(w, now, id).Ok?
    ensures var logs := W.Verify(w, now, id).value.logs;
            var m := w.Get(id);
            && |logs| >= 1
            && logs[|logs| - 1]
               == W.MasjidVerified(id, Deployed(w.deployments), w.Attesters(id), m.attestYes, m.attestNo)
            && forall i :: 0 <= i < |logs| - 1 ==> Ignored(logs[i])
  {
    hide WS.Inv, W.DeployMasjid, W.SetInstanceStatus, Ignored;
    var m := w.Get(id);
    VerifiedTerms(w, id);
    WS.DeployShape(w, now, id, m.masjidName, m.proposer, m.stablecoin, w.Board(id), m.cashOutThreshold);
    DeployLogs(w, now, id, m.masjidName, m.proposer, m.stablecoin, w.Board(id), m.cashOutThreshold);
    var deployed := W.DeployMasjid(w, Protocol, now, id, m.masjidName, m.proposer, m.stablecoin, w.Board(id),
                                   m.cashOutThreshold).value;
    var w' := deployed.state.WithMasjid(id, m.(instance := Deployed(w.deployments), status := W.Verified,
                                               updatedAt := now));
    SetStatusLogs(w', now, Deployed(w.deployments), I.Verified);
  }

  lemma VerifiedTerms(w: W.State, id: MasjidId)
    requires WS.Inv(w) && id in w.masjidById && w.Get(id).status == W.Pending
    ensures |w.Get(id).masjidName| > 0 && w.Get(id).proposer != Zero && w.Get(id).stablecoin != Zero
    ensures w.FactoryEntry(id) == Zero && w.Get(id).instance == Zero
    ensures Deployed(w.deployments) !in w.instances
  {
    hide WS.NamesInv, WS.BlanksInv, WS.RegistryInv, WS.VotesInv, Safety.Inv;
    assert WS.MasjidInv(w, id);
  }

  lemma VerifyAgreesOnMasjids(w: W.State, db: Db, now: Timestamp, id: MasjidId)
    requires WS.Inv(w) && id in w.masjidById && w.Get(id).status == W.Pending && W.Verify(w, now, id).Ok?
    requires MasjidSide(w, db)
    ensures var log := Stamped(W.MasjidVerified(id, Deployed(w.deployments), w.Attesters(id), w.Get(id).attestYes,
                                                w.Get(id).attestNo), now);
            MasjidSide(W.Verify(w, now, id).value.state, Handle(db, log))
  {
    hide WS.Inv, W.Verify, UpsertMasjid, UpdateStatus, UpdateAttestCounts, HandleInstance;
    var w' := W.Verify(w, now, id).value.state;
    var log := Stamped(W.MasjidVerified(id, Deployed(w.deployments), w.Attesters(id), w.Get(id).attestYes,
                                        w.Get(id).attestNo), now);
    assert MasjidAgrees(w, db, id);
    G.VerifyEffect(w, now, id);
    forall k ensures (k in w'.masjidById <==> k in w.masjidById) && w'.HasAttested(k) == w.HasAttested(k)
      ensures k != id ==> w'.Get(k) == w.Get(k)
    {
      if k != id { assert G.SameVotes(w, w', k); }
    }
    StatusRowAgrees(w, w', db, Handle(db, log), id);
  }

  lemma BornWithoutRequests(id: MasjidId, admin: Address, coin: Address, board: seq<Address>, threshold: nat,
                            now: Timestamp)
    requires I.Construct(Protocol, id, admin, coin, board, threshold, now).Ok?
    ensures var s := I.Construct(Protocol, id, admin, coin, board, threshold, now).value.state;
            s.cashOutById == map[] && s.approvers == map[]
  {
  }

  lemma VerifyAgreesOnInstances(w: W.State, db: Db, now: Timestamp, id: MasjidId)
    requires WS.Inv(w) && id in w.masjidById && w.Get(id).status == W.Pending && W.Verify(w, now, id).Ok?
    requires InstanceSide(w, db)
    ensures InstanceSide(W.Verify(w, now, id).value.state, db)
  {
    hide WS.Inv, W.Verify, I.Construct, RequestAgrees, I.State.Approvers;
    var m, w', deployed := w.Get(id), W.Verify(w, now, id).value.state, Deployed(w.deployments);
    VerifiedTerms(w, id);
    WS.VerifyShape(w, now, id);
    BornWithoutRequests(id, m.proposer, m.stablecoin, w.Board(id), m.cashOutThreshold, now);
    forall a ensures InstanceAgrees(w', db, a) {
      assert InstanceAgrees(w, db, a);
      if a == deployed {
        forall n: nat ensures RequestAgrees(w'.instances[a], db, a, n) { EmptyAgrees(w'.instances[a], db, a, n); }
      }
    }
  }

  lemma EmptyAgrees(s: I.State, db: Db, a: Address, n: nat)
    requires s.cashOutById == map[] && s.approvers == map[] && NoRequests(db, a)
    ensures RequestAgrees(s, db, a, n)
  {
  }

  lemma AttestAgrees(w: W.State, db: Db, caller: Address, now: Timestamp, id: MasjidId, support: bool)
    requires WS.Inv(w) && Agrees(w, db) && W.Attest(w, caller, now, id, support).Ok?
    ensures var r := W.Attest(w, caller, now, id, support).value; Agrees(r.state, Apply(db, Stamp(r.logs, now)))
  {
    hide WS.Inv, W.Verify, W.RecordVote, MasjidSide, InstanceSide, Handle;
    var r := W.Attest(w, caller, now, id, support).value;
    var w1 := W.RecordVote(w, caller, now, id, support);
    var m1 := w1.Get(id);
    var vote := W.MasjidAttested(id, caller, support, m1.attestYes, m1.attestNo);
    var db1 := Handle(db, Stamped(vote, now));
    G.AttestedIsRegistered(w, caller, now, id, support);
    G.CallerIsNotZero(w, caller);
    WS.RecordVoteFacts(w, caller, now, id, support);
    WS.RecordVoteKeepsInv(w, caller, now, id, support);
    VoteAgrees(w, db, caller, now, id, support);
    MasjidLogsKeepRequests(db, Stamped(vote, now));
    SameInstancesAgree(w, w1, db, db1);
    OneLog(db, vote, now);
    if m1.attestYes >= w.registry.Quorum() {
      var verified := W.Verify(w1, now, id).value;
      VerifyLogs(w1, now, id);
      var last := verified.logs[|verified.logs| - 1];
      VerifyAgreesOnMasjids(w1, db1, now, id);
      VerifyAgreesOnInstances(w1, db1, now, id);
      MasjidLogsKeepRequests(db1, Stamped(last, now));
      SameInstancesAgree(verified.state, verified.state, db1, Handle(db1, Stamped(last, now)));
      assert verified.logs == verified.logs[..|verified.logs| - 1] + [last];
      IgnoredThen(db1, verified.logs[..|verified.logs| - 1], last, now);
      StampAppends(db, [vote], verified.logs, now);
    } else if m1.attestNo >= w.registry.Quorum() {
      var rejection := W.MasjidRejected(id, w1.Attesters(id), m1.attestYes, m1.attestNo);
      VerifiedTerms(w1, id);
      RejectAgrees(w1, db1, id, now, w1.Attesters(id), m1.attestYes, m1.attestNo);
      MasjidLogsKeepRequests(db1, Stamped(rejection, now));
      SameInstancesAgree(w1, r.state, db1, Handle(db1, Stamped(rejection, now)));
      OneLog(db1, rejection, now);
      assert r.logs == [vote] + [rejection];
      StampAppends(db, [vote], [rejection], now);
    }
  }

  lemma OneLog(db: Db, e: W.Event, now: nat)
    ensures Apply(db, Stamp([e], now)) == Handle(db, Stamped(e, now))
  {
  }

  lemma StampAppends(db: Db, a: seq<W.Event>, b: seq<W.Event>, now: nat)
    ensures Apply(db, Stamp(a + b, now)) == Apply(Apply(db, Stamp(a, now)), Stamp(b, now))
  {
    hide Handle;
    assert Stamp(a + b, now) == Stamp(a, now) + Stamp(b, now);
    ApplyAppends(db, Stamp(a, now), Stamp(b, now));
  }

  lemma MasjidLogsKeepRequests(db: Db, l: Log)
    requires !l.event.InstanceLog?
    ensures Handle(db, l).requests == db.requests && Handle(db, l).votes == db.votes
  {
  }

  lemma SameInstancesAgree(w: W.State, w': W.State, db: Db, db': Db)
    requires InstanceSide(w, db) && w'.instances == w.instances && (db'.requests, db'.votes) == (db.requests, db.votes)
    ensures InstanceSide(w', db')
  {
    InstanceSideFrame(w, w', db, db');
  }

  // ---- Call by call: the instances ----------------------------------------------------------

  /** A call to the instance at `a` whose logs the indexer ignores and which touches no request. */
  lemma QuietInstanceAgrees(w: W.State, w': W.State, db: Db, a: Address)
    requires InstanceSide(w, db) && a in w.instances && a in w'.instances
    requires w'.instances == w.instances[a := w'.instances[a]] && Safety.SameRequests(w.instances[a], w'.instances[a])
    ensures InstanceSide(w', db)
  {
    InstanceSideFrame(w, w', db, db);
  }

  lemma TransferAdminAgrees(w: W.State, db: Db, caller: Address, now: Timestamp, id: MasjidId, newAdmin: Address)
    requires Agrees(w, db) && W.TransferAdmin(w, caller, now, id, newAdmin).Ok? && id in w.masjidById
    ensures var r := W.TransferAdmin(w, caller, now, id, newAdmin).value;
            Agrees(r.state, Apply(db, Stamp(r.logs, now)))
  {
    hide InstanceSide;
    var r := W.TransferAdmin(w, caller, now, id, newAdmin).value;
    forall k ensures MasjidAgrees(r.state, db, k) {
      assert MasjidAgrees(w, db, k);
      MasjidSideFrame(w, r.state, db, db, k);
    }
    QuietInstanceAgrees(w, r.state, db, w.Get(id).instance);
    IgnoredLogsDoNothing(db, Stamp(r.logs, now));
  }

  lemma SetStatusAgrees(w: W.State, db: Db, now: Timestamp, id: MasjidId, status: W.Status, mirrored: I.Verification)
    requires Agrees(w, db) && W.SetStatus(w, now, id, status, mirrored).Ok? && id in w.masjidById
    ensures var r := W.SetStatus(w, now, id, status, mirrored).value;
            Agrees(r.state, Apply(db, Stamp(r.logs, now)))
  {
    hide InstanceSide, MasjidSide, Handle, W.SetInstanceStatus, Ignored;
    var r := W.SetStatus(w, now, id, status, mirrored).value;
    var last := W.MasjidStatusUpdated(id, w.Get(id).status, status);
    StatusAgrees(w, db, now, id, status, mirrored);
    var w1 := w.WithMasjid(id, w.Get(id).(status := status, updatedAt := now));
    SetStatusLogs(w1, now, w.Get(id).instance, mirrored);
    SetInstanceStatusIsQuiet(w1, now, w.Get(id).instance, mirrored);
    QuietInstanceAgrees(w, r.state, db, w.Get(id).instance);
    MasjidLogsKeepRequests(db, Stamped(last, now));
    SameInstancesAgree(r.state, r.state, db, Handle(db, Stamped(last, now)));
    IgnoredThen(db, r.logs[..|r.logs| - 1], last, now);
    assert r.logs == r.logs[..|r.logs| - 1] + [last];
  }

  lemma SetInstanceStatusIsQuiet(w: W.State, now: Timestamp, a: Address, status: I.Verification)
    requires W.SetInstanceStatus(w, now, a, status).Ok?
    ensures var w' := W.SetInstanceStatus(w, now, a, status).value.state;
            && a in w.instances && w' == w.WithInstance(a, w'.instances[a])
            && Safety.SameRequests(w.instances[a], w'.instances[a])
  {
  }

  /** A request or an approval of the instance at `a`, and the log that reports it. */
  lemma ProposalAgrees(s: I.State, db: Db, a: Address, caller: Address, now: Timestamp,
                       to: Address, amount: nat, noteHash: nat, ttl: nat, n: nat)
    requires ttl < TWO_64 && Safety.Inv(s) && I.ProposeCashOut(s, caller, now, to, amount, noteHash, ttl).Ok?
    requires RequestAgrees(s, db, a, n)
    ensures var r := I.ProposeCashOut(s, caller, now, to, amount, noteHash, ttl).value;
            && |r.logs| == 1 && RequestAgrees(r.state, HandleInstance(db, a, r.logs[0], Wrap64(now)), a, n)
  {
  }

  lemma ApprovalAgrees(s: I.State, db: Db, a: Address, caller: Address, now: Timestamp, id: nat, n: nat)
    requires Safety.Inv(s) && I.ApproveCashOut(s, caller, now, id).Ok? && RequestAgrees(s, db, a, n)
    ensures var r := I.ApproveCashOut(s, caller, now, id).value;
            && |r.logs| == 1 && RequestAgrees(r.state, HandleInstance(db, a, r.logs[0], Wrap64(now)), a, n)
  {
  }

  lemma ExecutionAgrees(s: I.State, db: Db, a: Address, caller: Address, now: Timestamp, id: nat, n: nat)
    requires Safety.Inv(s) && I.ExecuteCashOut(s, caller, now, id, true).Ok? && RequestAgrees(s, db, a, n)
    ensures var r := I.ExecuteCashOut(s, caller, now, id, true).value;
            && |r.logs| == 1 && RequestAgrees(r.state, HandleInstance(db, a, r.logs[0], Wrap64(now)), a, n)
  {
  }

  lemma CancellationAgrees(s: I.State, db: Db, a: Address, caller: Address, now: Timestamp, id: nat, n: nat)
    requires Safety.Inv(s) && I.CancelCashOut(s, caller, id).Ok? && RequestAgrees(s, db, a, n)
    ensures var r := I.CancelCashOut(s, caller, id).value;
            && |r.logs| == 1 && RequestAgrees(r.state, HandleInstance(db, a, r.logs[0], Wrap64(now)), a, n)
  {
  }

  lemma RequestCallAgrees(s: I.State, db: Db, a: Address, tx: I.Tx, n: nat)
    requires I.ValidCall(tx.call) && !Safety.Governance(tx.call)
    requires Safety.Inv(s) && I.Execute(s, tx).Ok? && RequestAgrees(s, db, a, n)
    ensures var r := I.Execute(s, tx).value;
            && |r.logs| == 1 && RequestAgrees(r.state, HandleInstance(db, a, r.logs[0], Wrap64(tx.now)), a, n)
  {
    hide Safety.Inv, RequestAgrees, HandleInstance, I.ProposeCashOut, I.ApproveCashOut, I.CancelCashOut;
    hide I.BeginExecution;
    match tx.call
    case CallPropose(to, amount, noteHash, ttl) =>
      ProposalAgrees(s, db, a, tx.caller, tx.now, to, amount, noteHash, ttl, n);
    case CallApprove(id) => ApprovalAgrees(s, db, a, tx.caller, tx.now, id, n);
    case CallExecute(id, _) => ExecutionAgrees(s, db, a, tx.caller, tx.now, id, n);
    case CallCancel(id) => CancellationAgrees(s, db, a, tx.caller, tx.now, id, n);
  }

  lemma OtherInstanceUntouched(w: W.State, w': W.State, db: Db, a: Address, e: I.Event, now: nat, b: Address)
    requires InstanceAgrees(w, db, b) && a != b
    requires a in w'.instances && w'.instances == w.instances[a := w'.instances[a]]
    ensures InstanceAgrees(w', HandleInstance(db, a, e, Wrap64(now)), b)
  {
    var db' := HandleInstance(db, a, e, Wrap64(now));
    if b in w.instances {
      forall n: nat ensures RequestAgrees(w'.instances[b], db', b, n) {
        assert RequestAgrees(w.instances[b], db, b, n);
      }
    }
  }

  lemma InstanceCallAgrees(w: W.State, db: Db, a: Address, tx: I.Tx)
    requires InstanceSide(w, db) && a in w.instances && Safety.Inv(w.instances[a])
    requires I.ValidCall(tx.call) && I.Execute(w.instances[a], tx).Ok?
    ensures var r := I.Execute(w.instances[a], tx).value;
            InstanceSide(w.WithInstance(a, r.state), Apply(db, Stamp(W.InstanceLogs(a, r.logs), tx.now)))
  {
    hide Safety.Inv, RequestAgrees, HandleInstance, I.Execute, NoRequests;
    var r := I.Execute(w.instances[a], tx).value;
    var w' := w.WithInstance(a, r.state);
    if Safety.Governance(tx.call) {
      QuietLogs(w.instances[a], tx);
      IgnoredLogsDoNothing(db, Stamp(W.InstanceLogs(a, r.logs), tx.now));
      QuietCall(w.instances[a], tx);
      QuietInstanceAgrees(w, w', db, a);
    } else {
      assert InstanceAgrees(w, db, a);
      forall n: nat
        ensures |r.logs| == 1 && RequestAgrees(r.state, HandleInstance(db, a, r.logs[0], Wrap64(tx.now)), a, n)
      {
        RequestCallAgrees(w.instances[a], db, a, tx, n);
      }
      RequestCallAgrees(w.instances[a], db, a, tx, 0);
      var db' := HandleInstance(db, a, r.logs[0], Wrap64(tx.now));
      forall b ensures InstanceAgrees(w', db', b) {
        assert InstanceAgrees(w, db, b);
        if b != a { OtherInstanceUntouched(w, w', db, a, r.logs[0], tx.now, b); }
      }
      OneLog(db, W.InstanceLog(a, r.logs[0]), tx.now);
      assert W.InstanceLogs(a, r.logs) == [W.InstanceLog(a, r.logs[0])];
    }
  }

  lemma QuietCall(s: I.State, tx: I.Tx)
    requires I.ValidCall(tx.call) && Safety.Governance(tx.call) && I.Execute(s, tx).Ok?
    requires Safety.Inv(s)
    ensures Safety.SameRequests(s, I.Execute(s, tx).value.state)
  {
  }

  lemma QuietLogs(s: I.State, tx: I.Tx)
    requires I.ValidCall(tx.call) && Safety.Governance(tx.call) && I.Execute(s, tx).Ok?
    ensures var logs := I.Execute(s, tx).value.logs;
            forall i :: 0 <= i < |logs| ==> !logs[i].CashOutProposed? && !logs[i].CashOutApproved?
                                            && !logs[i].CashOutExecuted? && !logs[i].CashOutCanceled?
  {
  }

  // ---- Every run ----------------------------------------------------------------------------

  lemma InstanceTxAgrees(w: W.State, db: Db, tx: W.Tx)
    requires WS.Inv(w) && W.ValidTx(tx) && Agrees(w, db) && tx.call.CallInstance? && W.Execute(w, tx).Ok?
    ensures Agrees(W.Next(w, tx), Apply(db, Stamp(W.Logs(w, tx), tx.now)))
  {
    hide WS.RegistryInv, WS.MasjidsInv, WS.NamesInv, WS.BlanksInv, Safety.Inv, I.Execute, InstanceSide, Handle;
    hide MasjidAgrees;
    var a, itx := tx.call.instance, I.Tx(tx.caller, tx.now, tx.call.call);
    assert WS.DeployedInv(w, a);
    InstanceCallAgrees(w, db, a, itx);
    var db' := Apply(db, Stamp(W.Logs(w, tx), tx.now));
    InstanceLogsKeepMasjidTables(db, a, I.Execute(w.instances[a], itx).value.logs, tx.now);
    forall id ensures MasjidAgrees(W.Next(w, tx), db', id) {
      assert MasjidAgrees(w, db, id);
      MasjidSideFrame(w, W.Next(w, tx), db, db', id);
    }
  }

  lemma {:induction false} InstanceLogsKeepMasjidTables(db: Db, a: Address, events: seq<I.Event>, now: nat)
    ensures var db' := Apply(db, Stamp(W.InstanceLogs(a, events), now));
            db'.masjids == db.masjids && db'.attests == db.attests
    decreases |events|
  {
    hide HandleInstance, Wrap64;
    if events == [] {
    } else {
      var init, last := events[..|events| - 1], W.InstanceLog(a, events[|events| - 1]);
      var before := Apply(db, Stamp(W.InstanceLogs(a, init), now));
      InstanceLogsKeepMasjidTables(db, a, init, now);
      assert W.InstanceLogs(a, events) == W.InstanceLogs(a, init) + [last];
      StampAppends(db, W.InstanceLogs(a, init), [last], now);
      OneLog(before, last, now);
      InstanceLogsKeepMasjids(before, a, last.event, Wrap64(now));
    }
  }

  lemma RegisterTxAgrees(w: W.State, db: Db, caller: Address, now: Timestamp, name: string, uri: string,
                         coin: Address, board: seq<Address>)
    requires WS.Inv(w) && Agrees(w, db) && W.Register(w, caller, now, name, uri, coin, board).Ok?
    ensures var r := W.Register(w, caller, now, name, uri, coin, board).value;
            Agrees(r.state, Apply(db, Stamp(r.logs, now)))
  {
    hide WS.Inv, MasjidSide, InstanceSide, Handle;
    var r := W.Register(w, caller, now, name, uri, coin, board).value;
    RegisterAgrees(w, db, caller, now, name, uri, coin, board);
    OneLog(db, r.logs[0], now);
    assert r.logs == [r.logs[0]];
    MasjidLogsKeepRequests(db, Stamped(r.logs[0], now));
    SameInstancesAgree(w, r.state, db, Handle(db, Stamped(r.logs[0], now)));
  }

  lemma RegistryTxAgrees(w: W.State, db: Db, tx: W.Tx)
    requires W.ValidTx(tx) && Agrees(w, db) && W.Execute(w, tx).Ok?
    requires tx.call.CallTransferAuthority? || tx.call.CallAddVerifier? || tx.call.CallRemoveVerifier?
    ensures Agrees(W.Next(w, tx), Apply(db, Stamp(W.Logs(w, tx), tx.now)))
  {
    hide MasjidAgrees, InstanceSide;
    IgnoredLogsDoNothing(db, Stamp(W.Logs(w, tx), tx.now));
    var w' := W.Next(w, tx);
    assert w' == w.(registry := w'.registry);
    forall id ensures MasjidAgrees(w', db, id) {
      assert MasjidAgrees(w, db, id);
      MasjidSideFrame(w, w', db, db, id);
    }
    SameInstancesAgree(w, w', db, db);
  }

  lemma StepAgrees(w: W.State, db: Db, tx: W.Tx)
    requires WS.Inv(w) && W.ValidTx(tx) && Agrees(w, db)
    ensures Agrees(W.Next(w, tx), Apply(db, Stamp(W.Logs(w, tx), tx.now)))
  {
    hide WS.Inv, Agrees, Handle, W.Attest, W.TransferAdmin, W.SetStatus, W.Register, W.AddVerifier, W.RemoveVerifier,
         W.TransferAuthority, I.Execute;
    if W.Execute(w, tx).Ok? {
      match tx.call
      case CallTransferAuthority(_) => RegistryTxAgrees(w, db, tx);
      case CallAddVerifier(_) => RegistryTxAgrees(w, db, tx);
      case CallRemoveVerifier(_) => RegistryTxAgrees(w, db, tx);
      case CallRegister(name, uri, coin, board) => RegisterTxAgrees(w, db, tx.caller, tx.now, name, uri, coin, board);
      case CallAttest(id, support) => AttestAgrees(w, db, tx.caller, tx.now, id, support);
      case CallTransferAdmin(id, newAdmin) =>
        WS.TransferAdminIsRegistered(w, tx.caller, tx.now, id, newAdmin);
        TransferAdminAgrees(w, db, tx.caller, tx.now, id, newAdmin);
      case CallFlag(id) => SetStatusAgrees(w, db, tx.now, id, W.Flagged, I.Flagged);
      case CallUnflag(id) => SetStatusAgrees(w, db, tx.now, id, W.Verified, I.Verified);
      case CallRevoke(id) => SetStatusAgrees(w, db, tx.now, id, W.Revoked, I.Revoked);
      case CallInstance(_, _) => InstanceTxAgrees(w, db, tx);
    }
  }

  /** The tables that handling the log of a run gives agree with the contracts at its end: each masjid's
      status, tallies, instance and threshold, its attest rows, each request with its executed and canceled
      flags, and exactly its approvers as vote rows. */
  lemma {:induction false} TablesAgreeWithContracts(ws: seq<W.State>, txs: seq<W.Tx>, n: nat)
    requires W.IsRun(ws, txs) && n <= |txs|
    ensures Agrees(ws[n], Apply(EMPTY, LogOf(ws, txs, n)))
  {
    hide W.Execute, WS.Inv, Agrees, Handle;
    if n == 0 {
      InitialAgrees(ws[0]);
    } else {
      TablesAgreeWithContracts(ws, txs, n - 1);
      WS.RunKeepsInv(ws, txs, n - 1);
      StepAgrees(ws[n - 1], Apply(EMPTY, LogOf(ws, txs, n - 1)), txs[n - 1]);
      ApplyAppends(EMPTY, LogOf(ws, txs, n - 1), Stamp(W.Logs(ws[n - 1], txs[n - 1]), txs[n - 1].now));
    }
  }

  // ---- Times --------------------------------------------------------------------------------

  lemma WrapsExactlyFrom(x: nat)
    requires x < TWO_64
    ensures (Wrap64(x) == x <==> x < TWO_63) && (Wrap64(x) < 0 <==> TWO_63 <= x)
  {
  }

  /** After every run the `expires_at` of a request's row is the contract's expiry if and only if that is
      below 2^63; from there on the row holds a negative time. The same goes for `proposed_at`. */
  lemma ExpiryColumnIsExactExactlyWhen(ws: seq<W.State>, txs: seq<W.Tx>, n: nat, a: Address, request: nat)
    requires W.IsRun(ws, txs) && n <= |txs|
    requires a in ws[n].instances && request in ws[n].instances[a].cashOutById
    ensures var db, c := Apply(EMPTY, LogOf(ws, txs, n)), ws[n].instances[a].cashOutById[request];
            && (a, request) in db.requests
            && var terms := db.requests[(a, request)].terms;
            && (terms.expiresAt == c.expiresAt <==> c.expiresAt < TWO_63)
            && (terms.expiresAt < 0 <==> TWO_63 <= c.expiresAt)
            && (terms.proposedAt == c.createdAt <==> c.createdAt < TWO_63)
  {
    hide W.Next, WS.RegistryInv, WS.MasjidsInv, WS.NamesInv, WS.BlanksInv, Apply, Wrap64, MasjidSide, Safety.Inv;
    var db, s := Apply(EMPTY, LogOf(ws, txs, n)), ws[n].instances[a];
    WS.RunKeepsInv(ws, txs, n);
    assert WS.DeployedInv(ws[n], a);
    TablesAgreeWithContracts(ws, txs, n);
    assert InstanceAgrees(ws[n], db, a);
    assert RequestAgrees(s, db, a, request);
    RequestTimes(s, request);
    WrapsExactlyFrom(s.cashOutById[request].expiresAt);
    WrapsExactlyFrom(s.cashOutById[request].createdAt);
  }

  lemma RequestTimes(s: I.State, request: nat)
    requires Safety.Inv(s) && request in s.cashOutById
    ensures s.cashOutById[request].expiresAt < TWO_64 && s.cashOutById[request].createdAt < TWO_64
  {
    assert Safety.RequestInv(s, request);
  }

  /** It does happen: a board member's proposal with a lifetime of 2^63, in the first half of time. */
  lemma ProposalWithNegativeRow(s: I.State, db: Db, a: Address, member: Address, now: Timestamp, to: Address,
                                noteHash: nat)
    requires member in s.roles.board && s.status == I.Verified && to != Zero && now < TWO_63
    requires s.cashOutNonce < MAX_UINT256
    ensures var r := I.ProposeCashOut(s, member, now, to, 1, noteHash, TWO_63);
            && r.Ok? && var id := s.cashOutNonce + 1;
            && r.value.state.Request(id).expiresAt == now + TWO_63
            && HandleInstance(db, a, r.value.logs[0], Wrap64(now)).requests[(a, id)].terms.expiresAt == now - TWO_63 < 0
  {
  }

  // ---- The logs of a run are well formed ----------------------------------------------------

  /** An update names something the contracts already know. */
  ghost predicate Fine(w: W.State, e: W.Event) {
    && (e.MasjidRegistered? ==> e.proposer == e.id.sender)
    && (UpdatesMasjid(e) ==> e.id in w.masjidById)
    && (Settles(e) ==> e.instance in w.instances && e.event.requestId in w.instances[e.instance].cashOutById)
  }

  ghost predicate AllFine(w: W.State, events: seq<W.Event>) { forall i :: 0 <= i < |events| ==> Fine(w, events[i]) }

  lemma IgnoredIsFine(w: W.State, e: W.Event)
    requires Ignored(e)
    ensures Fine(w, e)
  {
  }

  lemma AttestLogsAreFine(w: W.State, caller: Address, now: Timestamp, id: MasjidId, support: bool)
    requires WS.Inv(w) && W.Attest(w, caller, now, id, support).Ok?
    ensures AllFine(w, W.Attest(w, caller, now, id, support).value.logs)
  {
    hide WS.Inv, W.Verify, W.RecordVote, Ignored;
    var w1 := W.RecordVote(w, caller, now, id, support);
    G.AttestedIsRegistered(w, caller, now, id, support);
    G.CallerIsNotZero(w, caller);
    WS.RecordVoteFacts(w, caller, now, id, support);
    WS.RecordVoteKeepsInv(w, caller, now, id, support);
    if w1.Get(id).attestYes >= w.registry.Quorum() {
      VerifyLogs(w1, now, id);
      var logs := W.Verify(w1, now, id).value.logs;
      forall i | 0 <= i < |logs| ensures Fine(w, logs[i]) {
        if i < |logs| - 1 { IgnoredIsFine(w, logs[i]); }
      }
    }
  }

  lemma SetStatusLogsAreFine(w: W.State, now: Timestamp, id: MasjidId, status: W.Status, mirrored: I.Verification)
    requires W.SetStatus(w, now, id, status, mirrored).Ok? && id in w.masjidById
    ensures AllFine(w, W.SetStatus(w, now, id, status, mirrored).value.logs)
  {
  }

  lemma TransferAdminLogsAreFine(w: W.State, caller: Address, now: Timestamp, id: MasjidId, newAdmin: Address)
    requires W.TransferAdmin(w, caller, now, id, newAdmin).Ok?
    ensures AllFine(w, W.TransferAdmin(w, caller, now, id, newAdmin).value.logs)
  {
  }

  lemma RegisterLogsAreFine(w: W.State, caller: Address, now: Timestamp, name: string, uri: string, coin: Address,
                            board: seq<Address>)
    requires W.Register(w, caller, now, name, uri, coin, board).Ok?
    ensures AllFine(w, W.Register(w, caller, now, name, uri, coin, board).value.logs)
  {
  }

  lemma InstanceLogsAreFine(w: W.State, a: Address, tx: I.Tx)
    requires a in w.instances && I.ValidCall(tx.call) && I.Execute(w.instances[a], tx).Ok?
    ensures AllFine(w, W.InstanceLogs(a, I.Execute(w.instances[a], tx).value.logs))
  {
  }

  lemma StepLogsAreFine(w: W.State, tx: W.Tx)
    requires WS.Inv(w) && W.ValidTx(tx)
    ensures AllFine(w, W.Logs(w, tx))
  {
    hide WS.RegistryInv, WS.MasjidsInv, WS.NamesInv, WS.BlanksInv, Safety.Inv, W.Attest, W.TransferAdmin, W.SetStatus,
         W.Register, I.Execute;
    if W.Execute(w, tx).Ok? {
      match tx.call
      case CallRegister(name, uri, coin, board) => RegisterLogsAreFine(w, tx.caller, tx.now, name, uri, coin, board);
      case CallAttest(id, support) => AttestLogsAreFine(w, tx.caller, tx.now, id, support);
      case CallTransferAdmin(id, newAdmin) => TransferAdminLogsAreFine(w, tx.caller, tx.now, id, newAdmin);
      case CallFlag(id) => SetStatusLogsAreFine(w, tx.now, id, W.Flagged, I.Flagged);
      case CallUnflag(id) => SetStatusLogsAreFine(w, tx.now, id, W.Verified, I.Verified);
      case CallRevoke(id) => SetStatusLogsAreFine(w, tx.now, id, W.Revoked, I.Revoked);
      case CallInstance(a, call) =>
        InstanceLogsAreFine(w, a, I.Tx(tx.caller, tx.now, call));
      case _ =>
    }
  }

  /** Rows are only made by registrations and proposals. */
  lemma {:induction false} RowsComeFromLogs(log: seq<Log>)
    ensures forall id :: id in Apply(EMPTY, log).masjids ==> exists p :: 0 <= p < |log| && Registers(log[p], id)
    ensures forall a, n: nat | (a, n) in Apply(EMPTY, log).requests ::
              exists p :: 0 <= p < |log| && Proposes(log[p], a, n)
    decreases |log|
  {
    if log == [] {
    } else {
      var init, last := log[..|log| - 1], log[|log| - 1];
      RowsComeFromLogs(init);
      var db, db' := Apply(EMPTY, init), Apply(EMPTY, log);
      NewRows(db, last);
      forall id | id in db'.masjids ensures exists p :: 0 <= p < |log| && Registers(log[p], id) {
        if id in db.masjids {
          var p :| 0 <= p < |init| && Registers(init[p], id);
          assert Registers(log[p], id);
        } else {
          assert Registers(log[|log| - 1], id);
        }
      }
      forall a, n: nat | (a, n) in db'.requests ensures exists p :: 0 <= p < |log| && Proposes(log[p], a, n) {
        if (a, n) in db.requests {
          var p :| 0 <= p < |init| && Proposes(init[p], a, n);
          assert Proposes(log[p], a, n);
        } else {
          assert Proposes(log[|log| - 1], a, n);
        }
      }
    }
  }

  lemma NewRows(db: Db, l: Log)
    ensures forall id :: id in Handle(db, l).masjids && id !in db.masjids ==> Registers(l, id)
    ensures forall a, n: nat :: (a, n) in Handle(db, l).requests && (a, n) !in db.requests ==> Proposes(l, a, n)
  {
  }

  lemma FineExtends(w: W.State, log: seq<Log>, events: seq<W.Event>, now: nat)
    requires WellFormedLog(log) && AllFine(w, events) && Agrees(w, Apply(EMPTY, log))
    ensures WellFormedLog(log + Stamp(events, now))
  {
    hide Apply, WS.MasjidInv;
    var log' := log + Stamp(events, now);
    RowsComeFromLogs(log);
    forall q | 0 <= q < |log'| ensures Grounded(log', q) {
      if q < |log| {
        assert Grounded(log, q);
        assert log'[..|log|] == log;
        GroundedInPrefix(log, Stamp(events, now), q);
      } else {
        var e := log'[q].event;
        assert e == events[q - |log|] && Fine(w, e);
        if UpdatesMasjid(e) {
          assert MasjidAgrees(w, Apply(EMPTY, log), e.id);
          var p :| 0 <= p < |log| && Registers(log[p], e.id);
          assert Registers(log'[p], e.id);
        }
        if Settles(e) {
          assert InstanceAgrees(w, Apply(EMPTY, log), e.instance);
          assert RequestAgrees(w.instances[e.instance], Apply(EMPTY, log), e.instance, e.event.requestId);
          var p :| 0 <= p < |log| && Proposes(log[p], e.instance, e.event.requestId);
          assert Proposes(log'[p], e.instance, e.event.requestId);
        }
      }
    }
  }

  lemma GroundedInPrefix(log: seq<Log>, more: seq<Log>, q: nat)
    requires q < |log| && Grounded(log, q)
    ensures Grounded(log + more, q)
  {
    var log', e := log + more, log[q].event;
    if UpdatesMasjid(e) {
      var p :| 0 <= p < q && Registers(log[p], e.id);
      assert Registers(log'[p], e.id);
    }
    if Settles(e) {
      var p :| 0 <= p < q && Proposes(log[p], e.instance, e.event.requestId);
      assert Proposes(log'[p], e.instance, e.event.requestId);
    }
  }

  lemma {:induction false} RunLogsAreWellFormed(ws: seq<W.State>, txs: seq<W.Tx>, n: nat)
    requires W.IsRun(ws, txs) && n <= |txs|
    ensures WellFormedLog(LogOf(ws, txs, n))
  {
    hide W.Execute, W.Next, W.Logs, WS.Inv, Agrees, WellFormedLog, AllFine, Apply, Stamp;
    if n == 0 {
      EmptyIsWellFormed();
    } else {
      RunLogsAreWellFormed(ws, txs, n - 1);
      TablesAgreeWithContracts(ws, txs, n - 1);
      WS.RunKeepsInv(ws, txs, n - 1);
      StepLogsAreFine(ws[n - 1], txs[n - 1]);
      FineExtends(ws[n - 1], LogOf(ws, txs, n - 1), W.Logs(ws[n - 1], txs[n - 1]), txs[n - 1].now);
    }
  }

  lemma EmptyIsWellFormed()
    ensures WellFormedLog([])
  {
  }

  /** End to end: however the indexer goes back over the log of a run, once it is through, its tables
      agree with the contracts. */
  lemma DeliveredTablesAgree(ws: seq<W.State>, txs: seq<W.Tx>, segments: seq<Segment>)
    requires W.IsRun(ws, txs) && Schedule(segments, 0, |LogOf(ws, txs, |txs|)|)
    ensures Agrees(ws[|txs|], Deliver(EMPTY, LogOf(ws, txs, |txs|), segments, 0))
  {
    hide W.Execute, Agrees, WellFormedLog, Schedule, Deliver, Apply;
    var log := LogOf(ws, txs, |txs|);
    RunLogsAreWellFormed(ws, txs, |txs|);
    TablesAgreeWithContracts(ws, txs, |txs|);
    AtLeastOnceIsExactlyOnce(log, segments);
  }
}
