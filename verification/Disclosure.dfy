/** The chain that a run of the contracts leaves behind, and what an indexer can rely on in it. */
module Disclosure {
  import opened Types
  import opened Projection
  import opened Replay
  import opened Facts
  import opened Chain
  import opened Refinement
  import W = World
  import WS = WorldSafety
  import G = Governance
  import Runs = InstanceRuns
  import I = Instance

  // ---- What each transaction says about instances -------------------------------------------

  /** Only instances emit instance logs, and an id is registered when new and verified when pending. */
  ghost predicate Timely(w: W.State, w': W.State, e: W.Event) {
    && (e.InstanceLog? ==> e.instance in w'.instances)
    && (e.MasjidRegistered? ==> e.id !in w.masjidById)
    && (e.MasjidVerified? ==> w.Get(e.id).instance == Zero)
  }

  ghost predicate AllTimely(w: W.State, w': W.State, events: seq<W.Event>) {
    forall i :: 0 <= i < |events| ==> Timely(w, w', events[i])
  }

  lemma DeployIsTimely(w: W.State, w0: W.State, now: Timestamp, id: MasjidId, name: string, admin: Address,
                       coin: Address,
                       board: seq<Address>, threshold: nat)
    requires W.DeployMasjid(w, Protocol, now, id, name, admin, coin, board, threshold).Ok?
    ensures var r := W.DeployMasjid(w, Protocol, now, id, name, admin, coin, board, threshold).value;
            AllTimely(w0, r.state, r.logs)
  {
    hide I.Construct;
  }

  lemma VerifyIsTimely(w: W.State, w0: W.State, now: Timestamp, id: MasjidId)
    requires W.Verify(w, now, id).Ok? && w0.Get(id).instance == Zero
    ensures AllTimely(w0, W.Verify(w, now, id).value.state, W.Verify(w, now, id).value.logs)
  {
    hide W.DeployMasjid, I.SetStatus;
    var m := w.Get(id);
    DeployIsTimely(w, w0, now, id, m.masjidName, m.proposer, m.stablecoin, w.Board(id), m.cashOutThreshold);
    var deployed := W.DeployMasjid(w, Protocol, now, id, m.masjidName, m.proposer, m.stablecoin, w.Board(id),
                                   m.cashOutThreshold).value;
    assert forall i :: 0 <= i < |deployed.logs| ==> Timely(w0, deployed.state, deployed.logs[i]);
  }

  lemma AttestIsTimely(w: W.State, caller: Address, now: Timestamp, id: MasjidId, support: bool)
    requires WS.Inv(w) && W.Attest(w, caller, now, id, support).Ok?
    ensures var r := W.Attest(w, caller, now, id, support).value; AllTimely(w, r.state, r.logs)
  {
    hide WS.Inv, W.Verify, W.RecordVote;
    G.AttestedIsRegistered(w, caller, now, id, support);
    PendingHasNone(w, id);
    var w' := W.RecordVote(w, caller, now, id, support);
    if w'.Get(id).attestYes >= w.registry.Quorum() { VerifyIsTimely(w', w, now, id); }
  }

  lemma PendingHasNone(w: W.State, id: MasjidId)
    requires WS.Inv(w) && id in w.masjidById && w.Get(id).status == W.Pending
    ensures w.Get(id).instance == Zero
  {
    assert WS.MasjidInv(w, id);
  }

  lemma RegisterIsTimely(w: W.State, caller: Address, now: Timestamp, name: string, uri: string, coin: Address,
                         board: seq<Address>)
    requires WS.Inv(w) && W.Register(w, caller, now, name, uri, coin, board).Ok?
    ensures var r := W.Register(w, caller, now, name, uri, coin, board).value; AllTimely(w, r.state, r.logs)
  {
    hide WS.RegistryInv, WS.MasjidInv, WS.NamesInv, WS.Blank, WS.DeploymentsInv;
    WS.RegisterIsFresh(w, caller, name);
  }

  lemma SetStatusIsTimely(w: W.State, now: Timestamp, id: MasjidId, status: W.Status, mirrored: I.Verification)
    requires W.SetStatus(w, now, id, status, mirrored).Ok?
    ensures var r := W.SetStatus(w, now, id, status, mirrored).value; AllTimely(w, r.state, r.logs)
  {
    hide I.SetStatus;
  }

  lemma TransferAdminIsTimely(w: W.State, caller: Address, now: Timestamp, id: MasjidId, newAdmin: Address)
    requires W.TransferAdmin(w, caller, now, id, newAdmin).Ok?
    ensures var r := W.TransferAdmin(w, caller, now, id, newAdmin).value; AllTimely(w, r.state, r.logs)
  {
    hide I.SetAdmin;
  }

  lemma RegistryOrInstanceCallIsTimely(w: W.State, tx: W.Tx)
    requires W.ValidTx(tx) && W.Execute(w, tx).Ok?
    requires tx.call.CallTransferAuthority? || tx.call.CallAddVerifier? || tx.call.CallRemoveVerifier?
             || tx.call.CallInstance?
    ensures AllTimely(w, W.Next(w, tx), W.Logs(w, tx))
  {
    hide I.Execute;
  }

  lemma StepIsTimely(w: W.State, tx: W.Tx)
    requires WS.Inv(w) && W.ValidTx(tx)
    ensures AllTimely(w, W.Next(w, tx), W.Logs(w, tx))
  {
    hide WS.Inv, W.Attest, W.Register, W.TransferAdmin, W.SetStatus, I.Execute, Timely;
    if W.Execute(w, tx).Ok? {
      match tx.call
      case CallRegister(name, uri, coin, board) => RegisterIsTimely(w, tx.caller, tx.now, name, uri, coin, board);
      case CallAttest(id, support) => AttestIsTimely(w, tx.caller, tx.now, id, support);
      case CallTransferAdmin(id, newAdmin) => TransferAdminIsTimely(w, tx.caller, tx.now, id, newAdmin);
      case CallFlag(id) => SetStatusIsTimely(w, tx.now, id, W.Flagged, I.Flagged);
      case CallUnflag(id) => SetStatusIsTimely(w, tx.now, id, W.Verified, I.Verified);
      case CallRevoke(id) => SetStatusIsTimely(w, tx.now, id, W.Revoked, I.Revoked);
      case _ => RegistryOrInstanceCallIsTimely(w, tx);
    }
  }

  // ---- The log of a run ---------------------------------------------------------------------

  lemma DeployedStays(w: W.State, tx: W.Tx, a: Address)
    requires WS.Inv(w) && W.ValidTx(tx) && a in w.instances
    ensures a in W.Next(w, tx).instances
  {
    hide WS.RegistryInv, WS.NamesInv, WS.BlanksInv, W.Next, Runs.Safety.Inv, WS.TermsInv, WS.VotesInv;
    assert WS.DeployedInv(w, a);
    var id := w.instances[a].id;
    Runs.InstanceStays(w, tx, id);
    WS.StepKeepsInv(w, tx);
    G.StepEffect(w, tx, id);
    assert WS.MasjidInv(W.Next(w, tx), id);
  }

  lemma {:induction false} EmittersAreDeployed(ws: seq<W.State>, txs: seq<W.Tx>, n: nat)
    requires W.IsRun(ws, txs) && n <= |txs|
    ensures forall p :: 0 <= p < |LogOf(ws, txs, n)| && LogOf(ws, txs, n)[p].event.InstanceLog?
                        ==> LogOf(ws, txs, n)[p].event.instance in ws[n].instances
  {
    hide WS.Inv, W.Execute, W.Next, W.Logs;
    if n == 0 {
    } else {
      var w, tx := ws[n - 1], txs[n - 1];
      EmittersAreDeployed(ws, txs, n - 1);
      WS.RunKeepsInv(ws, txs, n - 1);
      StepIsTimely(w, tx);
      var before := LogOf(ws, txs, n - 1);
      forall p | 0 <= p < |LogOf(ws, txs, n)| && LogOf(ws, txs, n)[p].event.InstanceLog?
        ensures LogOf(ws, txs, n)[p].event.instance in ws[n].instances
      {
        if p < |before| {
          assert LogOf(ws, txs, n)[p] == before[p];
          DeployedStays(w, tx, before[p].event.instance);
        } else {
          assert LogOf(ws, txs, n)[p].event == W.Logs(w, tx)[p - |before|];
          assert Timely(w, W.Next(w, tx), W.Logs(w, tx)[p - |before|]);
        }
      }
    }
  }

  ghost predicate Emits(events: seq<W.Event>, a: Address) {
    exists i :: 0 <= i < |events| && events[i].InstanceLog? && events[i].instance == a
  }

  lemma VerifyEmits(w: W.State, now: Timestamp, id: MasjidId)
    requires W.Verify(w, now, id).Ok? && Deployed(w.deployments) !in w.instances
    ensures var r := W.Verify(w, now, id).value;
            forall a :: a in r.state.instances && a !in w.instances ==> Emits(r.logs, a)
  {
    hide I.Construct, I.SetStatus;
    var m := w.Get(id);
    var made := I.Construct(Protocol, id, m.proposer, m.stablecoin, w.Board(id), m.cashOutThreshold, now);
    ConstructionEmits(id, m.proposer, m.stablecoin, w.Board(id), m.cashOutThreshold, now);
    assert W.Verify(w, now, id).value.logs[0] == W.InstanceLog(Deployed(w.deployments), made.value.logs[0]);
  }

  lemma ConstructionEmits(id: MasjidId, admin: Address, coin: Address, board: seq<Address>, threshold: nat,
                          now: Timestamp)
    requires I.Construct(Protocol, id, admin, coin, board, threshold, now).Ok?
    ensures |I.Construct(Protocol, id, admin, coin, board, threshold, now).value.logs| > 0
  {
  }

  lemma CreationEmits(w: W.State, tx: W.Tx, a: Address)
    requires WS.Inv(w) && W.ValidTx(tx) && a in W.Next(w, tx).instances && a !in w.instances
    ensures Emits(W.Logs(w, tx), a)
  {
    hide WS.Inv, W.Attest, W.Execute, I.Execute, Runs.BornFor, Runs.CallOn;
    var move := Runs.StepMove(w, tx, a);
    DecisiveVote(w, tx, a);
  }

  lemma DecisiveVote(w: W.State, tx: W.Tx, a: Address)
    requires WS.Inv(w) && W.ValidTx(tx) && tx.call.CallAttest? && a in W.Next(w, tx).instances && a !in w.instances
    ensures Emits(W.Logs(w, tx), a)
  {
    hide WS.Inv, W.Verify, W.RecordVote;
    var id, support := tx.call.id, tx.call.support;
    var w1 := W.RecordVote(w, tx.caller, tx.now, id, support);
    WS.RecordVoteFacts(w, tx.caller, tx.now, id, support);
    G.RecordVoteDeploysNothing(w, tx.caller, tx.now, id, support);
    NextIsFree(w);
    if W.Execute(w, tx).Ok? && w1.Get(id).attestYes >= w.registry.Quorum() {
      VerifyEmits(w1, tx.now, id);
      var logs := W.Verify(w1, tx.now, id).value.logs;
      var i :| 0 <= i < |logs| && logs[i].InstanceLog? && logs[i].instance == a;
      assert W.Logs(w, tx)[i + 1] == logs[i];
    }
  }

  lemma NextIsFree(w: W.State)
    requires WS.Inv(w)
    ensures Deployed(w.deployments) !in w.instances
  {
    hide WS.RegistryInv, WS.MasjidsInv, WS.NamesInv, WS.BlanksInv;
    Runs.NextAddressIsFree(w);
  }

  /** The deployed instances are exactly those that have emitted a log: an instance emits in the very
      transaction that deploys it. */
  lemma {:induction false} DeployedExactlyWhenEmitted(ws: seq<W.State>, txs: seq<W.Tx>, n: nat, a: Address)
    requires W.IsRun(ws, txs) && n <= |txs|
    ensures a in ws[n].instances <==> HasEmitted(LogOf(ws, txs, n), a)
  {
    hide WS.Inv, W.Execute, W.Next, W.Logs, Emits;
    var log := LogOf(ws, txs, n);
    EmittersAreDeployed(ws, txs, n);
    if p :| 0 <= p < |log| && EmittedBy(log[p], a) { assert log[p].event.instance in ws[n].instances; }
    if a in ws[n].instances && n > 0 {
      var before := LogOf(ws, txs, n - 1);
      WS.RunKeepsInv(ws, txs, n - 1);
      if a in ws[n - 1].instances {
        DeployedExactlyWhenEmitted(ws, txs, n - 1, a);
        var p :| 0 <= p < |before| && EmittedBy(before[p], a);
        assert EmittedBy(log[p], a);
      } else {
        CreationEmits(ws[n - 1], txs[n - 1], a);
        var i := EmittedAt(W.Logs(ws[n - 1], txs[n - 1]), a);
        assert log[|before| + i].event == W.Logs(ws[n - 1], txs[n - 1])[i];
        assert EmittedBy(log[|before| + i], a);
      }
    }
  }

  ghost predicate HasEmitted(log: seq<Log>, a: Address) { exists p :: 0 <= p < |log| && EmittedBy(log[p], a) }

  predicate EmittedBy(l: Log, a: Address) { l.event.InstanceLog? && l.event.instance == a }

  lemma EmittedAt(events: seq<W.Event>, a: Address) returns (i: nat)
    requires Emits(events, a)
    ensures i < |events| && events[i].InstanceLog? && events[i].instance == a
  {
    i :| 0 <= i < |events| && events[i].InstanceLog? && events[i].instance == a;
  }

  lemma {:induction false} LogGrows(ws: seq<W.State>, txs: seq<W.Tx>, m: nat, n: nat)
    requires W.IsRun(ws, txs) && m <= n <= |txs|
    ensures LogOf(ws, txs, m) <= LogOf(ws, txs, n)
  {
    hide W.Execute, W.Logs;
    if m == n {
    } else {
      LogGrows(ws, txs, m, n - 1);
    }
  }

  /** Once a masjid has its instance, no later log writes the instance column of its row. */
  lemma {:induction false} NamedOnce(ws: seq<W.State>, txs: seq<W.Tx>, m: nat, n: nat, id: MasjidId)
    requires W.IsRun(ws, txs) && m <= n <= |txs|
    requires id in ws[m].masjidById && ws[m].Get(id).instance != Zero
    ensures id in ws[n].masjidById && ws[n].Get(id).instance == ws[m].Get(id).instance
    ensures var lo, log := |LogOf(ws, txs, m)|, LogOf(ws, txs, n);
            && lo <= |log|
            && forall p :: lo <= p < |log| ==> Writes(log[p], InstanceOf(id)) == None
  {
    hide WS.Inv, W.Execute, W.Next, W.Logs;
    if m == n {
    } else {
      var w, tx := ws[n - 1], txs[n - 1];
      NamedOnce(ws, txs, m, n - 1, id);
      WS.RunKeepsInv(ws, txs, n - 1);
      StepIsTimely(w, tx);
      Runs.InstanceStays(w, tx, id);
      G.StepEffect(w, tx, id);
      LogGrows(ws, txs, m, n - 1);
      var before, log := LogOf(ws, txs, n - 1), LogOf(ws, txs, n);
      forall p | |LogOf(ws, txs, m)| <= p < |log| ensures Writes(log[p], InstanceOf(id)) == None {
        if p < |before| {
          assert log[p] == before[p];
        } else {
          assert log[p].event == W.Logs(w, tx)[p - |before|];
          assert Timely(w, W.Next(w, tx), W.Logs(w, tx)[p - |before|]);
          NewsOnly(w, W.Next(w, tx), log[p], id);
        }
      }
    }
  }

  lemma NewsOnly(w: W.State, w': W.State, l: Log, id: MasjidId)
    requires Timely(w, w', l.event) && id in w.masjidById && w.Get(id).instance != Zero
    ensures Writes(l, InstanceOf(id)) == None
  {
  }

  lemma {:induction false} NothingWritten(log: seq<Log>, lo: nat, hi: nat, c: Cell)
    requires lo <= hi <= |log| && forall p :: lo <= p < hi ==> Writes(log[p], c) == None
    ensures LastIn(log, lo, hi, c) == None
  {
    hide Writes;
    if lo == hi {
    } else {
      NothingWritten(log, lo, hi - 1, c);
    }
  }

  lemma {:induction false} LastInPrefix(log: seq<Log>, at: nat, hi: nat, c: Cell)
    requires hi <= at <= |log|
    ensures LastIn(log[..at], 0, hi, c) == LastIn(log, 0, hi, c)
  {
    hide Writes;
    if hi == 0 {
    } else {
      LastInPrefix(log, at, hi - 1, c);
    }
  }

  lemma HandledOnce(log: seq<Log>, c: Cell)
    requires WellFormedLog(log)
    ensures Read(Apply(EMPTY, log), c) == LastIn(log, 0, |log|, c)
  {
    hide WellFormedLog, ApplyRange, Read, Writes;
    NothingDelivered(log);
    DeliverRange(EMPTY, log, 0, |log|);
    PrefixIsRange(log, |log|);
    assert log[..|log|] == log;
    assert LastIn(log, |log|, |log|, c) == None;
  }

  /** A deployed instance is the one its masjid's row names. */
  lemma RowNamesInstance(w: W.State, db: Db, a: Address) returns (id: MasjidId)
    requires WS.Inv(w) && MasjidSide(w, db) && a in w.instances
    ensures id in w.masjidById && w.Get(id).instance == a != Zero
    ensures Read(db, InstanceOf(id)) == Some(InstanceIs(Some(a)))
  {
    hide WS.RegistryInv, WS.MasjidsInv, WS.NamesInv, WS.BlanksInv, Runs.Safety.Inv;
    assert WS.DeployedInv(w, a);
    id := w.instances[a].id;
    assert MasjidAgrees(w, db, id);
  }

  lemma DeployedIsNamed(ws: seq<W.State>, txs: seq<W.Tx>, m: nat, a: Address) returns (id: MasjidId)
    requires W.IsRun(ws, txs) && m <= |txs| && a in ws[m].instances
    ensures |LogOf(ws, txs, m)| <= |LogOf(ws, txs, |txs|)|
    ensures Names(LogOf(ws, txs, |txs|), |LogOf(ws, txs, m)|, id, a)
  {
    hide WS.Inv, WellFormedLog, Apply, Writes, Read, MasjidSide, InstanceSide, LastIn, W.Next, W.Logs, LogOf;
    var log, at := LogOf(ws, txs, |txs|), |LogOf(ws, txs, m)|;
    LogGrows(ws, txs, m, |txs|);
    assert log[..at] == LogOf(ws, txs, m);
    WS.RunKeepsInv(ws, txs, m);
    TablesAgreeWithContracts(ws, txs, m);
    id := RowNamesInstance(ws[m], Apply(EMPTY, log[..at]), a);
    RunLogsAreWellFormed(ws, txs, m);
    HandledOnce(log[..at], InstanceOf(id));
    LastInPrefix(log, at, at, InstanceOf(id));
    NamedOnce(ws, txs, m, |txs|, id);
    NothingWritten(log, at, |log|, InstanceOf(id));
  }

  // ---- Each fact is told once ---------------------------------------------------------------

  /** What the contracts' storage says of a fact. */
  ghost predicate Holds(w: W.State, f: Fact) {
    && f.a in w.instances
    && var s := w.instances[f.a];
    match f
    case Made(_, n) => n in s.cashOutById
    case Approved(_, n, account) => account in s.Approvers(n)
    case Executed(_, n) => s.Request(n).executed
    case Canceled(_, n) => s.Request(n).canceled
  }

  lemma AgreedTablesKnowWhatHolds(w: W.State, db: Db, f: Fact)
    requires InstanceSide(w, db)
    ensures Knows(db, f) ==> Holds(w, f)
  {
    hide MasjidSide;
    assert InstanceAgrees(w, db, f.a);
    if f.a in w.instances { assert RequestAgrees(w.instances[f.a], db, f.a, f.n); }
  }

  /** A log as if it were delivered: only its event matters to what it tells. */
  function Told(e: W.Event): Option<Fact> { Tells(Log(e, 0)) }

  lemma InstanceTellsNews(s: I.State, a: Address, tx: I.Tx)
    requires Runs.Safety.Inv(s) && I.ValidCall(tx.call) && I.Execute(s, tx).Ok?
    ensures var logs := I.Execute(s, tx).value.logs;
            forall i :: 0 <= i < |logs| && Told(W.InstanceLog(a, logs[i])).Some? ==> i == 0 && |logs| == 1
    ensures var logs := I.Execute(s, tx).value.logs;
            forall w: W.State | a in w.instances && w.instances[a] == s ::
              |logs| > 0 && Told(W.InstanceLog(a, logs[0])).Some? ==> !Holds(w, Told(W.InstanceLog(a, logs[0])).value)
  {
  }

  /** What a transaction tells is one thing, it is all the transaction logs, and it did not hold before. */
  ghost predicate News(w: W.State, events: seq<W.Event>) {
    forall i :: 0 <= i < |events| && Told(events[i]).Some? ==> |events| == 1 && !Holds(w, Told(events[0]).value)
  }

  lemma IgnoredTellsNothing(e: W.Event)
    requires Ignored(e) || !e.InstanceLog?
    ensures Told(e).None?
  {
  }

  lemma QuietIsNews(w: W.State, events: seq<W.Event>)
    requires forall i :: 0 <= i < |events| ==> Ignored(events[i]) || !events[i].InstanceLog?
    ensures News(w, events)
  {
    hide Told, Ignored;
    forall i | 0 <= i < |events| ensures Told(events[i]).None? { IgnoredTellsNothing(events[i]); }
  }

  lemma InstanceCallIsNews(w: W.State, a: Address, tx: I.Tx)
    requires a in w.instances && Runs.Safety.Inv(w.instances[a]) && I.ValidCall(tx.call)
    requires I.Execute(w.instances[a], tx).Ok?
    ensures News(w, W.InstanceLogs(a, I.Execute(w.instances[a], tx).value.logs))
  {
    hide I.Execute, Runs.Safety.Inv, Holds, Told;
    InstanceTellsNews(w.instances[a], a, tx);
  }

  lemma SetStatusIsQuiet(w: W.State, now: Timestamp, id: MasjidId, status: W.Status, mirrored: I.Verification)
    requires W.SetStatus(w, now, id, status, mirrored).Ok?
    ensures News(w, W.SetStatus(w, now, id, status, mirrored).value.logs)
  {
    hide W.SetInstanceStatus;
    var m := w.Get(id);
    SetStatusLogs(w.WithMasjid(id, m.(status := status, updatedAt := now)), now, m.instance, mirrored);
    QuietIsNews(w, W.SetStatus(w, now, id, status, mirrored).value.logs);
  }

  lemma TransferAdminIsQuiet(w: W.State, caller: Address, now: Timestamp, id: MasjidId, newAdmin: Address)
    requires W.TransferAdmin(w, caller, now, id, newAdmin).Ok?
    ensures News(w, W.TransferAdmin(w, caller, now, id, newAdmin).value.logs)
  {
    QuietIsNews(w, W.TransferAdmin(w, caller, now, id, newAdmin).value.logs);
  }

  lemma AttestIsQuiet(w: W.State, caller: Address, now: Timestamp, id: MasjidId, support: bool)
    requires WS.Inv(w) && W.Attest(w, caller, now, id, support).Ok?
    ensures News(w, W.Attest(w, caller, now, id, support).value.logs)
  {
    hide WS.Inv, W.Verify, W.RecordVote, Ignored;
    var w1 := W.RecordVote(w, caller, now, id, support);
    G.AttestedIsRegistered(w, caller, now, id, support);
    WS.RecordVoteFacts(w, caller, now, id, support);
    if w1.Get(id).attestYes >= w.registry.Quorum() {
      G.CallerIsNotZero(w, caller);
      WS.RecordVoteKeepsInv(w, caller, now, id, support);
      VerifyLogs(w1, now, id);
    }
    QuietIsNews(w, W.Attest(w, caller, now, id, support).value.logs);
  }

  lemma RegistryOrRegisterIsQuiet(w: W.State, tx: W.Tx)
    requires W.ValidTx(tx)
    requires tx.call.CallTransferAuthority? || tx.call.CallAddVerifier? || tx.call.CallRemoveVerifier?
             || tx.call.CallRegister?
    ensures News(w, W.Logs(w, tx))
  {
    hide Told;
    QuietIsNews(w, W.Logs(w, tx));
  }

  lemma StepIsNews(w: W.State, tx: W.Tx)
    requires WS.Inv(w) && W.ValidTx(tx)
    ensures News(w, W.Logs(w, tx))
  {
    hide WS.RegistryInv, WS.MasjidsInv, WS.NamesInv, WS.BlanksInv, Runs.Safety.Inv, News;
    hide W.Attest, W.TransferAdmin, W.SetStatus, W.Register, I.Execute;
    if W.Execute(w, tx).Ok? {
      match tx.call
      case CallAttest(id, support) => AttestIsQuiet(w, tx.caller, tx.now, id, support);
      case CallTransferAdmin(id, newAdmin) => TransferAdminIsQuiet(w, tx.caller, tx.now, id, newAdmin);
      case CallFlag(id) => SetStatusIsQuiet(w, tx.now, id, W.Flagged, I.Flagged);
      case CallUnflag(id) => SetStatusIsQuiet(w, tx.now, id, W.Verified, I.Verified);
      case CallRevoke(id) => SetStatusIsQuiet(w, tx.now, id, W.Revoked, I.Revoked);
      case CallInstance(a, call) =>
        assert WS.DeployedInv(w, a);
        InstanceCallIsNews(w, a, I.Tx(tx.caller, tx.now, call));
      case _ => RegistryOrRegisterIsQuiet(w, tx);
    } else {
      NoEventsAreNews(w);
    }
  }

  lemma NoEventsAreNews(w: W.State)
    ensures News(w, [])
  {
  }

  lemma NewsExtends(w: W.State, log: seq<Log>, events: seq<W.Event>, now: nat)
    requires TellsNews(log) && News(w, events) && InstanceSide(w, Apply(EMPTY, log))
    ensures TellsNews(log + Stamp(events, now))
  {
    hide Apply, Holds, Knows, InstanceSide;
    var log' := log + Stamp(events, now);
    forall p | 0 <= p < |log'| && Tells(log'[p]).Some? ensures !Knows(Apply(EMPTY, log'[..p]), Tells(log'[p]).value) {
      if p < |log| {
        assert log'[p] == log[p] && log'[..p] == log[..p];
      } else {
        var e := events[p - |log|];
        assert log'[p] == Stamped(e, now);
        OnlyTheEventTells(log'[p]);
        assert log'[..p] == log;
        AgreedTablesKnowWhatHolds(w, Apply(EMPTY, log), Told(e).value);
      }
    }
  }

  lemma OnlyTheEventTells(l: Log)
    ensures Tells(l) == Told(l.event)
  {
  }

  /** In the log of every run no log tells what an earlier one has told. */
  lemma {:induction false} RunLogsTellNews(ws: seq<W.State>, txs: seq<W.Tx>, n: nat)
    requires W.IsRun(ws, txs) && n <= |txs|
    ensures TellsNews(LogOf(ws, txs, n))
  {
    hide W.Execute, W.Next, W.Logs, WS.Inv, MasjidSide, InstanceSide, TellsNews, News, Apply, Stamp;
    if n == 0 {
      EmptyTellsNews();
    } else {
      RunLogsTellNews(ws, txs, n - 1);
      TablesAgreeWithContracts(ws, txs, n - 1);
      WS.RunKeepsInv(ws, txs, n - 1);
      StepIsNews(ws[n - 1], txs[n - 1]);
      NewsExtends(ws[n - 1], LogOf(ws, txs, n - 1), W.Logs(ws[n - 1], txs[n - 1]), txs[n - 1].now);
    }
  }

  lemma EmptyTellsNews()
    ensures TellsNews([])
  {
  }

  // ---- Blocks -------------------------------------------------------------------------------

  /** `blocks[i]` is the block of transaction `i`. */
  ghost predicate Mined(txs: seq<W.Tx>, blocks: seq<nat>) {
    |blocks| == |txs| && forall i, j :: 0 <= i <= j < |blocks| ==> blocks[i] <= blocks[j]
  }

  ghost function BlocksOf(ws: seq<W.State>, txs: seq<W.Tx>, blocks: seq<nat>, n: nat): seq<nat>
    requires W.IsRun(ws, txs) && Mined(txs, blocks) && n <= |txs|
  {
    if n == 0 then []
    else BlocksOf(ws, txs, blocks, n - 1) + seq(|W.Logs(ws[n - 1], txs[n - 1])|, _ => blocks[n - 1])
  }

  ghost function NodeOf(ws: seq<W.State>, txs: seq<W.Tx>, blocks: seq<nat>): Node
    requires W.IsRun(ws, txs) && Mined(txs, blocks)
  {
    Node(LogOf(ws, txs, |txs|), BlocksOf(ws, txs, blocks, |txs|))
  }

  lemma {:induction false} BlocksInOrder(ws: seq<W.State>, txs: seq<W.Tx>, blocks: seq<nat>, n: nat)
    requires W.IsRun(ws, txs) && Mined(txs, blocks) && n <= |txs|
    ensures var bs := BlocksOf(ws, txs, blocks, n);
            && |bs| == |LogOf(ws, txs, n)|
            && (forall p :: 0 <= p < |bs| ==> n > 0 && bs[p] <= blocks[n - 1])
            && (forall p, q :: 0 <= p <= q < |bs| ==> bs[p] <= bs[q])
  {
    hide W.IsRun, W.Logs;
    if n == 0 {
    } else {
      BlocksInOrder(ws, txs, blocks, n - 1);
    }
  }

  /** The logs before a block are those of the transactions before it. */
  lemma {:induction false} BlockBoundary(ws: seq<W.State>, txs: seq<W.Tx>, blocks: seq<nat>, n: nat, m: nat, b: nat)
    requires W.IsRun(ws, txs) && Mined(txs, blocks) && m <= n <= |txs|
    requires (m > 0 ==> blocks[m - 1] < b) && (m < n ==> blocks[m] >= b)
    ensures |LogOf(ws, txs, m)| <= |LogOf(ws, txs, n)| == |BlocksOf(ws, txs, blocks, n)|
    ensures CountBefore(BlocksOf(ws, txs, blocks, n), b) == |LogOf(ws, txs, m)|
  {
    hide W.IsRun, W.Logs, LogOf, BlocksOf, CountBefore;
    BlocksInOrder(ws, txs, blocks, n);
    BlocksInOrder(ws, txs, blocks, m);
    LogGrows(ws, txs, m, n);
    var bs, at := BlocksOf(ws, txs, blocks, n), |LogOf(ws, txs, m)|;
    BlocksGrow(ws, txs, blocks, m, n);
    BeforeSplits(bs, b);
    assert at < |bs| ==> bs[at] >= b;
    assert at > 0 ==> bs[at - 1] < b;
    assert CountBefore(bs, b) < |bs| ==> bs[CountBefore(bs, b)] >= b;
    assert CountBefore(bs, b) > 0 ==> bs[CountBefore(bs, b) - 1] < b;
  }

  lemma {:induction false} BlocksGrow(ws: seq<W.State>, txs: seq<W.Tx>, blocks: seq<nat>, m: nat, n: nat)
    requires W.IsRun(ws, txs) && Mined(txs, blocks) && m <= n <= |txs|
    ensures BlocksOf(ws, txs, blocks, m) <= BlocksOf(ws, txs, blocks, n)
    ensures var at, bs := |BlocksOf(ws, txs, blocks, m)|, BlocksOf(ws, txs, blocks, n);
            forall p :: at <= p < |bs| ==> m < n && blocks[m] <= bs[p]
  {
    hide W.IsRun, W.Logs;
    if m == n {
    } else {
      BlocksGrow(ws, txs, blocks, m, n - 1);
    }
  }

  /** How many transactions are in blocks before `b`. */
  function StepsBefore(blocks: seq<nat>, b: nat): nat { CountBefore(blocks, b) }

  lemma LogsBeforeBlock(ws: seq<W.State>, txs: seq<W.Tx>, blocks: seq<nat>, b: nat)
    requires W.IsRun(ws, txs) && Mined(txs, blocks)
    ensures var m := StepsBefore(blocks, b);
            && m <= |txs| && |LogOf(ws, txs, m)| <= |LogOf(ws, txs, |txs|)|
            && NodeOf(ws, txs, blocks).Before(b) == |LogOf(ws, txs, m)|
  {
    hide W.IsRun, LogOf, BlocksOf, CountBefore;
    BeforeSplits(blocks, b);
    BlockBoundary(ws, txs, blocks, |txs|, StepsBefore(blocks, b), b);
  }

  /** A list lacks no emitter of the blocks before `b` if and only if it has every instance deployed in them. */
  lemma ListsAllDeployedExactlyWhenComplete(ws: seq<W.State>, txs: seq<W.Tx>, blocks: seq<nat>, b: nat,
                                            listed: set<Address>)
    requires W.IsRun(ws, txs) && Mined(txs, blocks)
    ensures var node, m := NodeOf(ws, txs, blocks), StepsBefore(blocks, b);
            && m <= |txs| && node.Before(b) <= |node.log|
            && (Complete(listed, node.log, node.Before(b)) <==> ws[m].instances.Keys <= listed)
  {
    hide W.Next, LogOf, BlocksOf, StepsBefore;
    var node, m := NodeOf(ws, txs, blocks), StepsBefore(blocks, b);
    LogsBeforeBlock(ws, txs, blocks, b);
    LogGrows(ws, txs, m, |txs|);
    forall a ensures a in ws[m].instances <==> exists p :: 0 <= p < node.Before(b) && EmittedBy(node.log[p], a) {
      DeployedExactlyWhenEmitted(ws, txs, m, a);
      var log := LogOf(ws, txs, m);
      assert forall p :: 0 <= p < |log| ==> node.log[p] == log[p];
      if HasEmitted(log, a) {
        var p :| 0 <= p < |log| && EmittedBy(log[p], a);
        assert EmittedBy(node.log[p], a);
      }
    }
    if Complete(listed, node.log, node.Before(b)) {
      forall a | a in ws[m].instances ensures a in listed {
        var p :| 0 <= p < node.Before(b) && EmittedBy(node.log[p], a);
      }
    } else {
      var p :| 0 <= p < node.Before(b) && node.log[p].event.InstanceLog? && node.log[p].event.instance !in listed;
      assert EmittedBy(node.log[p], node.log[p].event.instance);
    }
  }

  lemma DisclosedAfter(ws: seq<W.State>, txs: seq<W.Tx>, m: nat)
    requires W.IsRun(ws, txs) && m <= |txs|
    ensures |LogOf(ws, txs, m)| <= |LogOf(ws, txs, |txs|)|
    ensures Disclosed(LogOf(ws, txs, |txs|), |LogOf(ws, txs, m)|)
  {
    hide W.Next, W.Logs, LogOf, Names;
    var log, at := LogOf(ws, txs, |txs|), |LogOf(ws, txs, m)|;
    EmittersAreDeployed(ws, txs, m);
    LogGrows(ws, txs, m, |txs|);
    forall p | 0 <= p < at && log[p].event.InstanceLog? ensures exists id :: Names(log, at, id, log[p].event.instance) {
      assert log[p] == LogOf(ws, txs, m)[p];
      var id := DeployedIsNamed(ws, txs, m, log[p].event.instance);
    }
  }

  /** The chain of a run is sound: updates follow what they update, nothing is told twice, and by the end of
      every block each instance that has emitted a log is named, once and for all, by a masjid's row. */
  lemma RunChainIsSound(ws: seq<W.State>, txs: seq<W.Tx>, blocks: seq<nat>)
    requires W.IsRun(ws, txs) && Mined(txs, blocks)
    ensures Sound(NodeOf(ws, txs, blocks))
  {
    hide W.IsRun, WellFormedLog, TellsNews, Disclosed, LogOf, BlocksOf, CountBefore;
    var node := NodeOf(ws, txs, blocks);
    BlocksInOrder(ws, txs, blocks, |txs|);
    RunLogsAreWellFormed(ws, txs, |txs|);
    RunLogsTellNews(ws, txs, |txs|);
    forall b: nat ensures node.Before(b) <= |node.log| && Disclosed(node.log, node.Before(b)) {
      LogsBeforeBlock(ws, txs, blocks, b);
      DisclosedAfter(ws, txs, StepsBefore(blocks, b));
    }
  }

  /** Tables that both passes have brought up to a head past the last transaction, which is what a poll
      without failures does, agree with the contracts. */
  lemma CaughtUpAgrees(ws: seq<W.State>, txs: seq<W.Tx>, blocks: seq<nat>, head: nat, db: Db)
    requires W.IsRun(ws, txs) && Mined(txs, blocks) && forall i :: 0 <= i < |blocks| ==> blocks[i] < head
    requires var node := NodeOf(ws, txs, blocks);
             MasjidsDelivered(db, node.log, node.Before(head)) && RequestsDelivered(db, node.log, node.Before(head))
    ensures Agrees(ws[|txs|], db)
  {
    hide W.IsRun, WellFormedLog, Agrees, MasjidsDelivered, RequestsDelivered, LogOf, BlocksOf, CountBefore;
    var node := NodeOf(ws, txs, blocks);
    BlocksInOrder(ws, txs, blocks, |txs|);
    BeforeSplits(node.blockOf, head);
    assert |node.log| > 0 ==> node.blockOf[|node.log| - 1] < head;
    RunLogsAreWellFormed(ws, txs, |txs|);
    HalvesMakeTheWhole(db, node.log);
    TablesAgreeWithContracts(ws, txs, |txs|);
  }
}
