/** Every instance in a run of the whole system is itself in a run of MasjidInstance, so everything
    proved of single instances holds of the deployed ones. */
module InstanceRuns {
  import opened Types
  import opened World
  import opened WorldSafety
  import opened Governance
  import I = Instance
  import Safety = InstanceSafety

  /** The call that a committed transaction makes to the instance at `a`, if any: the account's own call,
      or the call by which the protocol mirrors a status or an admin. */
  function CallOn(w: State, tx: Tx, a: Address): Option<I.Tx> {
    match tx.call
    case CallInstance(b, call) => if b == a then Some(I.Tx(tx.caller, tx.now, call)) else None
    case CallTransferAdmin(id, newAdmin) =>
      if w.Get(id).instance == a then Some(I.Tx(Protocol, tx.now, I.CallSetAdmin(newAdmin))) else None
    case CallFlag(id) => if w.Get(id).instance == a then Some(StatusCall(tx.now, I.Flagged)) else None
    case CallUnflag(id) => if w.Get(id).instance == a then Some(StatusCall(tx.now, I.Verified)) else None
    case CallRevoke(id) => if w.Get(id).instance == a then Some(StatusCall(tx.now, I.Revoked)) else None
    case _ => None
  }

  function StatusCall(now: Timestamp, status: I.Verification): I.Tx { I.Tx(Protocol, now, I.CallSetStatus(status)) }

  /** How a system step moves the instance at `a`: not at all, by the call the transaction makes to it, or
      into being by the construction a decisive vote causes and the protocol's first setStatus. */
  datatype Move = Stay | Called | Created(born: I.State)

  ghost predicate IsMove(w: State, tx: Tx, w': State, a: Address, move: Move) {
    && a in w'.instances
    && (a in w.instances <==> !move.Created?)
    && match move
       case Stay => w'.instances[a] == w.instances[a]
       case Called =>
         var call := CallOn(w, tx, a);
         && call.Some? && I.ValidCall(call.value.call) && I.Execute(w.instances[a], call.value).Ok?
         && w'.instances[a] == I.Next(w.instances[a], call.value)
       case Created(born) =>
         && tx.call.CallAttest? && a == Deployed(w.deployments)
         && BornFor(w, tx.call.id, tx.now, born)
         && w'.instances[a] == I.Next(born, StatusCall(tx.now, I.Verified))
  }

  /** The constructor's result on what the protocol recorded about the masjid. */
  ghost predicate BornFor(w: State, id: MasjidId, now: Timestamp, born: I.State) {
    var m := w.Get(id);
    Safety.BornAs(born, Protocol, id, m.proposer, m.stablecoin, w.Board(id), m.cashOutThreshold, now)
  }

  lemma AttestMove(w: State, tx: Tx, a: Address) returns (move: Move)
    requires Inv(w) && tx.call.CallAttest? && Attest(w, tx.caller, tx.now, tx.call.id, tx.call.support).Ok?
    requires a in Attest(w, tx.caller, tx.now, tx.call.id, tx.call.support).value.state.instances
    ensures IsMove(w, tx, Attest(w, tx.caller, tx.now, tx.call.id, tx.call.support).value.state, a, move)
  {
    hide Inv, Verify, RecordVote, IsMove;
    var id, support := tx.call.id, tx.call.support;
    var w1 := RecordVote(w, tx.caller, tx.now, id, support);
    RecordVoteFacts(w, tx.caller, tx.now, id, support);
    AttestedIsRegistered(w, tx.caller, tx.now, id, support);
    if w1.Get(id).attestYes >= w.registry.Quorum() {
      CallerIsNotZero(w, tx.caller);
      RecordVoteKeepsInv(w, tx.caller, tx.now, id, support);
      RecordVoteDeploysNothing(w, tx.caller, tx.now, id, support);
      move := VerifyMove(w1, tx, a);
      SameInstancesMove(w, tx, w1, Verify(w1, tx.now, id).value.state, a, move);
    } else {
      move := Stay;
      StayMove(w, tx, Attest(w, tx.caller, tx.now, id, support).value.state, a);
    }
  }

  lemma SameInstancesMove(w: State, tx: Tx, w1: State, w': State, a: Address, move: Move)
    requires w1.instances == w.instances && w1.deployments == w.deployments
    requires tx.call.CallAttest? && IsMove(w1, tx, w', a, move)
    requires var m, m1 := w.Get(tx.call.id), w1.Get(tx.call.id);
             && (m1.proposer, m1.stablecoin, m1.cashOutThreshold) == (m.proposer, m.stablecoin, m.cashOutThreshold)
             && w1.Board(tx.call.id) == w.Board(tx.call.id)
    ensures IsMove(w, tx, w', a, move)
  {
    hide Safety.BornAs, I.Next;
  }

  lemma StayMove(w: State, tx: Tx, w': State, a: Address)
    requires w'.instances == w.instances && a in w.instances
    ensures IsMove(w, tx, w', a, Stay)
  {
    hide BornFor, I.Next;
  }

  lemma VerifyMove(w: State, tx: Tx, a: Address) returns (move: Move)
    requires tx.call.CallAttest? && Inv(w) && tx.call.id in w.masjidById && w.Get(tx.call.id).status == Pending
    requires Verify(w, tx.now, tx.call.id).Ok? && a in Verify(w, tx.now, tx.call.id).value.state.instances
    ensures IsMove(w, tx, Verify(w, tx.now, tx.call.id).value.state, a, move)
  {
    hide NamesInv, BlanksInv, RegistryInv, MasjidInv, DeploymentsInv, Verify, I.Construct, I.SetStatus, I.Next;
    var id, m := tx.call.id, w.Get(tx.call.id);
    RegisteredTerms(w, id);
    PendingHasNoInstance(w, id);
    NextAddressIsFree(w);
    VerifyShape(w, tx.now, id);
    var r := I.Construct(Protocol, id, m.proposer, m.stablecoin, w.Board(id), m.cashOutThreshold, tx.now);
    if a == Deployed(w.deployments) {
      move := Created(r.value.state);
      SetStatusIsACall(r.value.state, StatusCall(tx.now, I.Verified));
    } else {
      move := Stay;
    }
  }

  lemma RegisteredTerms(w: State, id: MasjidId)
    requires MasjidInv(w, id)
    ensures |w.Get(id).masjidName| > 0 && w.Get(id).proposer != Zero && w.Get(id).stablecoin != Zero
  {
  }

  lemma NextAddressIsFree(w: State)
    requires DeploymentsInv(w)
    ensures Deployed(w.deployments) !in w.instances
  {
    hide Safety.Inv;
  }

  lemma SetStatusIsACall(s: I.State, tx: I.Tx)
    requires tx.call.CallSetStatus? && I.SetStatus(s, tx.caller, tx.now, tx.call.newStatus).Ok?
    ensures I.Next(s, tx) == I.SetStatus(s, tx.caller, tx.now, tx.call.newStatus).value.state
  {
    hide I.SetStatus;
  }

  lemma SetAdminIsACall(s: I.State, tx: I.Tx)
    requires tx.call.CallSetAdmin? && I.SetAdmin(s, tx.caller, tx.call.newAdmin).Ok?
    ensures I.Next(s, tx) == I.SetAdmin(s, tx.caller, tx.call.newAdmin).value.state
  {
    hide I.SetAdmin;
  }

  lemma TransferAdminMove(w: State, tx: Tx, a: Address) returns (move: Move)
    requires tx.call.CallTransferAdmin? && TransferAdmin(w, tx.caller, tx.now, tx.call.id, tx.call.newAdmin).Ok?
    requires a in TransferAdmin(w, tx.caller, tx.now, tx.call.id, tx.call.newAdmin).value.state.instances
    ensures IsMove(w, tx, TransferAdmin(w, tx.caller, tx.now, tx.call.id, tx.call.newAdmin).value.state, a, move)
  {
    hide I.SetAdmin, I.Next, BornFor;
    move := Stay;
    if a == w.Get(tx.call.id).instance {
      move := Called;
      SetAdminIsACall(w.instances[a], CallOn(w, tx, a).value);
    }
  }

  lemma SetStatusMove(w: State, tx: Tx, id: MasjidId, status: Status, mirrored: I.Verification, a: Address)
      returns (move: Move)
    requires w.Get(id).instance == a ==> CallOn(w, tx, a) == Some(StatusCall(tx.now, mirrored))
    requires SetStatus(w, tx.now, id, status, mirrored).Ok?
    requires a in SetStatus(w, tx.now, id, status, mirrored).value.state.instances
    ensures IsMove(w, tx, SetStatus(w, tx.now, id, status, mirrored).value.state, a, move)
  {
    hide I.SetStatus, I.Next, BornFor, CallOn;
    move := Stay;
    if a == w.Get(id).instance {
      move := Called;
      SetStatusIsACall(w.instances[a], StatusCall(tx.now, mirrored));
    }
  }

  lemma InstanceCallMove(w: State, tx: Tx, a: Address) returns (move: Move)
    requires ValidTx(tx) && tx.call.CallInstance? && Execute(w, tx).Ok? && a in Next(w, tx).instances
    ensures IsMove(w, tx, Next(w, tx), a, move)
  {
    hide I.Execute, BornFor;
    move := if a == tx.call.instance then Called else Stay;
  }

  lemma StepMove(w: State, tx: Tx, a: Address) returns (move: Move)
    requires Inv(w) && ValidTx(tx) && a in Next(w, tx).instances
    ensures IsMove(w, tx, Next(w, tx), a, move)
  {
    hide Inv, Attest, TransferAdmin, SetStatus, I.Execute, IsMove, Register, AddVerifier, RemoveVerifier;
    hide TransferAuthority;
    move := Stay;
    if Execute(w, tx).Ok? {
      match tx.call
      case CallAttest(_, _) => move := AttestMove(w, tx, a);
      case CallTransferAdmin(_, _) => move := TransferAdminMove(w, tx, a);
      case CallFlag(id) => move := SetStatusMove(w, tx, id, Flagged, I.Flagged, a);
      case CallUnflag(id) => move := SetStatusMove(w, tx, id, Verified, I.Verified, a);
      case CallRevoke(id) => move := SetStatusMove(w, tx, id, Revoked, I.Revoked, a);
      case CallInstance(_, _) => move := InstanceCallMove(w, tx, a);
      case _ => OtherCallsLeaveInstances(w, tx); StayMove(w, tx, Next(w, tx), a);
    } else {
      StayMove(w, tx, Next(w, tx), a);
    }
  }

  lemma OtherCallsLeaveInstances(w: State, tx: Tx)
    requires ValidTx(tx)
    requires tx.call.CallTransferAuthority? || tx.call.CallAddVerifier? || tx.call.CallRemoveVerifier?
             || tx.call.CallRegister?
    ensures Next(w, tx).instances == w.instances
  {
  }

  lemma ExtendRun(ss: seq<I.State>, itxs: seq<I.Tx>, tx: I.Tx)
    requires Safety.IsRun(ss, itxs) && I.ValidCall(tx.call)
    requires itxs != [] ==> itxs[|itxs| - 1].now <= tx.now
    ensures Safety.IsRun(ss + [I.Next(ss[|itxs|], tx)], itxs + [tx])
  {
  }

  /** The instance run `ss, itxs` is what the first `n` steps of the system did to the instance at `a`:
      `at` names, in order, the steps that called it, `itxs` are the calls those steps made to it, and `ss`
      are its states between them; no other step changed it. The first step is the one that created it. */
  ghost predicate Traces(ws: seq<State>, txs: seq<Tx>, n: nat, a: Address, ss: seq<I.State>, itxs: seq<I.Tx>,
                         at: seq<nat>)
    requires n <= |txs| < |ws|
  {
    && |at| == |itxs| == |ss| - 1 > 0
    && (forall j, k :: 0 <= j < k < |at| ==> at[j] < at[k])
    && (forall j :: 0 <= j < |at| ==> at[j] < n && Traced(ws, txs, at[j], a, ss[j], itxs[j], ss[j + 1], j == 0))
    && (forall i :: at[0] < i < n && i !in at ==> SameInstance(ws[i], ws[i + 1], a))
  }

  ghost predicate SameInstance(w: State, w': State, a: Address) {
    a in w.instances && a in w'.instances && w'.instances[a] == w.instances[a]
  }

  /** Step `i` took the instance at `a` from `s` to `s'` by the call `itx`: its own creation, the first time. */
  ghost predicate Traced(ws: seq<State>, txs: seq<Tx>, i: nat, a: Address, s: I.State, itx: I.Tx, s': I.State,
                         first: bool)
    requires i < |txs| < |ws|
  {
    && (if first then CreatedAt(ws, txs, i, a, s, itx) else CalledAt(ws, txs, i, a, s, itx))
    && a in ws[i + 1].instances && ws[i + 1].instances[a] == s'
  }

  /** Step `i` made the call `itx` to the instance at `a`, which was in state `s`. */
  ghost predicate CalledAt(ws: seq<State>, txs: seq<Tx>, i: nat, a: Address, s: I.State, itx: I.Tx)
    requires i < |txs| < |ws|
  {
    && a in ws[i].instances && ws[i].instances[a] == s
    && CallOn(ws[i], txs[i], a) == Some(itx) && I.ValidCall(itx.call) && I.Execute(s, itx).Ok?
  }

  /** Step `i` was the vote that created the instance at `a`, in state `s`, and the protocol verified it. */
  ghost predicate CreatedAt(ws: seq<State>, txs: seq<Tx>, i: nat, a: Address, s: I.State, itx: I.Tx)
    requires i < |txs| < |ws|
  {
    && a !in ws[i].instances
    && txs[i].call.CallAttest? && BornFor(ws[i], txs[i].call.id, txs[i].now, s)
    && itx == StatusCall(txs[i].now, I.Verified)
  }

  /** What a run of the system does to one instance is a run of MasjidInstance, call for call and state for
      state. */
  lemma {:induction false} InstancesRun(ws: seq<State>, txs: seq<Tx>, n: nat, a: Address)
      returns (ss: seq<I.State>, itxs: seq<I.Tx>, at: seq<nat>)
    requires IsRun(ws, txs) && n <= |txs| && a in ws[n].instances
    ensures Safety.IsRun(ss, itxs) && Traces(ws, txs, n, a, ss, itxs, at)
    ensures ss[|itxs|] == ws[n].instances[a]
  {
    hide Execute, Inv, I.Next, I.Execute, Safety.IsRun, BornFor, CallOn, Traces, IsMove;
    if n == 0 {
      assert false;
    } else {
      RunKeepsInv(ws, txs, n - 1);
      var move := StepMove(ws[n - 1], txs[n - 1], a);
      if move.Created? {
        ss, itxs, at := TraceStarts(ws, txs, n, a, move);
      } else {
        MovedWasThere(ws[n - 1], txs[n - 1], ws[n], a, move);
        ss, itxs, at := InstancesRun(ws, txs, n - 1, a);
        ss, itxs, at := TraceGoesOn(ws, txs, n, a, move, ss, itxs, at);
      }
    }
  }

  lemma MovedWasThere(w: State, tx: Tx, w': State, a: Address, move: Move)
    requires IsMove(w, tx, w', a, move) && !move.Created?
    ensures a in w.instances
  {
    hide I.Next, I.Execute;
  }

  lemma TraceStarts(ws: seq<State>, txs: seq<Tx>, n: nat, a: Address, move: Move)
      returns (ss: seq<I.State>, itxs: seq<I.Tx>, at: seq<nat>)
    requires 0 < n <= |txs| < |ws| && IsMove(ws[n - 1], txs[n - 1], ws[n], a, move) && move.Created?
    ensures Safety.IsRun(ss, itxs) && Traces(ws, txs, n, a, ss, itxs, at)
    ensures ss[|itxs|] == ws[n].instances[a]
  {
    hide I.Next, I.Execute, Safety.IsRun, BornFor, CallOn;
    var itx := StatusCall(txs[n - 1].now, I.Verified);
    BornForIsBorn(ws[n - 1], txs[n - 1].call.id, txs[n - 1].now, move.born);
    RunStart(move.born);
    ExtendRun([move.born], [], itx);
    ss, itxs, at := [move.born] + [I.Next(move.born, itx)], [] + [itx], [n - 1];
  }

  lemma TraceGoesOn(ws: seq<State>, txs: seq<Tx>, n: nat, a: Address, move: Move, ss: seq<I.State>, itxs: seq<I.Tx>,
                    at: seq<nat>)
      returns (ss': seq<I.State>, itxs': seq<I.Tx>, at': seq<nat>)
    requires IsRun(ws, txs) && 0 < n <= |txs| && IsMove(ws[n - 1], txs[n - 1], ws[n], a, move) && !move.Created?
    requires Safety.IsRun(ss, itxs) && Traces(ws, txs, n - 1, a, ss, itxs, at)
    requires a in ws[n - 1].instances && ss[|itxs|] == ws[n - 1].instances[a]
    ensures Safety.IsRun(ss', itxs') && Traces(ws, txs, n, a, ss', itxs', at')
    ensures ss'[|itxs'|] == ws[n].instances[a]
  {
    hide I.Next, I.Execute, Safety.IsRun, BornFor, CallOn, Next, Execute, Initial;
    ss', itxs', at' := ss, itxs, at;
    if move.Called? {
      var itx := CallOn(ws[n - 1], txs[n - 1], a).value;
      CallsInOrder(ws, txs, n, a, ss, itxs, at, itx);
      ExtendRun(ss, itxs, itx);
      TraceExtends(ws, txs, n, a, ss, itxs, at, ws[n].instances[a], itx);
      ss', itxs', at' := ss + [I.Next(ss[|itxs|], itx)], itxs + [itx], at + [n - 1];
    }
  }

  lemma TraceExtends(ws: seq<State>, txs: seq<Tx>, n: nat, a: Address, ss: seq<I.State>, itxs: seq<I.Tx>, at: seq<nat>,
                     s': I.State, itx: I.Tx)
    requires 0 < n <= |txs| < |ws| && Traces(ws, txs, n - 1, a, ss, itxs, at)
    requires Traced(ws, txs, n - 1, a, ss[|itxs|], itx, s', false)
    ensures Traces(ws, txs, n, a, ss + [s'], itxs + [itx], at + [n - 1])
  {
    hide Traced, SameInstance;
    var ss', itxs', at' := ss + [s'], itxs + [itx], at + [n - 1];
    forall j | 0 <= j < |at'|
      ensures at'[j] < n && Traced(ws, txs, at'[j], a, ss'[j], itxs'[j], ss'[j + 1], j == 0)
    {
      if j < |at| { assert Traced(ws, txs, at[j], a, ss[j], itxs[j], ss[j + 1], j == 0); }
    }
    forall i | at'[0] < i < n && i !in at' ensures SameInstance(ws[i], ws[i + 1], a) {
      assert at'[|at|] == n - 1;
    }
  }

  lemma BornForIsBorn(w: State, id: MasjidId, now: Timestamp, born: I.State)
    requires BornFor(w, id, now, born)
    ensures Safety.Born(born)
  {
    hide Safety.BornAs;
  }

  lemma CallsInOrder(ws: seq<State>, txs: seq<Tx>, n: nat, a: Address, ss: seq<I.State>, itxs: seq<I.Tx>,
                     at: seq<nat>, itx: I.Tx)
    requires IsRun(ws, txs) && 0 < n <= |txs| && Traces(ws, txs, n - 1, a, ss, itxs, at)
    requires CallOn(ws[n - 1], txs[n - 1], a) == Some(itx)
    ensures itxs[|itxs| - 1].now <= itx.now
  {
    hide Next, Execute, I.Execute, BornFor, SameInstance;
    var j := |at| - 1;
    assert Traced(ws, txs, at[j], a, ss[j], itxs[j], ss[j + 1], j == 0);
    assert txs[at[|at| - 1]].now <= txs[n - 1].now;
  }

  lemma RunStart(s: I.State)
    requires Safety.Born(s)
    ensures Safety.IsRun([s], [])
  {
  }

  // ---- What that gives ----------------------------------------------------------------------

  /** Step `j` of the system run is `account`'s own approval of the request: on the board, on a verified
      instance, between the creation and the expiry of the request. */
  ghost predicate ApprovedAt(ws: seq<State>, txs: seq<Tx>, j: nat, a: Address, request: nat, account: Address)
    requires j < |txs| < |ws|
  {
    && txs[j].caller == account
    && txs[j].call == CallInstance(a, I.CallApprove(request))
    && a in ws[j].instances && a in ws[j + 1].instances
    && var s, s' := ws[j].instances[a], ws[j + 1].instances[a];
    && account !in s.Approvers(request) && account in s'.Approvers(request)
    && account in s.roles.board
    && s.status == I.Verified
    && s.Request(request).createdAt <= txs[j].now <= s.Request(request).expiresAt
  }

  /** Step `i` of the system run paid the request: sent by the masjid's admin, while the protocol had the
      masjid verified and the instance agreed, in time, and with at least the threshold of that moment in
      distinct accounts, each of which had sent its approval at an earlier step. */
  ghost predicate ExecutedAt(ws: seq<State>, txs: seq<Tx>, i: nat, a: Address, request: nat)
    requires i < |txs| < |ws|
  {
    && txs[i].call == CallInstance(a, I.CallExecute(request, true))
    && a in ws[i].instances && a in ws[i + 1].instances
    && var s, s' := ws[i].instances[a], ws[i + 1].instances[a];
    && !s.Request(request).executed && s'.Request(request).executed
    && s.id in ws[i].masjidById && ws[i].Get(s.id).instance == a
    && ws[i].Get(s.id).status == Verified && s.status == I.Verified
    && txs[i].caller == ws[i].Get(s.id).masjidAdmin && txs[i].caller in s.roles.admin
    && txs[i].now <= s.Request(request).expiresAt
    && 1 <= s.cashOutThreshold <= |s.Approvers(request)|
    && forall x :: x in s.Approvers(request) ==> exists j :: 0 <= j < i && ApprovedAt(ws, txs, j, a, request, x)
  }

  /** Every executed request of every deployed instance was paid at one step of the run of the system, with
      the evidence of `ExecutedAt` among the steps before it, and neither its terms nor its approvers have
      changed since. */
  lemma EveryPayoutHasEvidence(ws: seq<State>, txs: seq<Tx>, n: nat, a: Address, request: nat) returns (i: nat)
    requires IsRun(ws, txs) && n <= |txs| && a in ws[n].instances
    requires ws[n].instances[a].Request(request).executed
    ensures i < n && ExecutedAt(ws, txs, i, a, request)
    ensures ws[n].instances[a].Request(request) == ws[i].instances[a].Request(request).(executed := true)
    ensures ws[n].instances[a].Approvers(request) == ws[i].instances[a].Approvers(request)
  {
    hide Execute, Inv, I.Execute, Safety.IsRun, Safety.ApprovedAt, ApprovedAt, BornFor;
    var ss, itxs, at := InstancesRun(ws, txs, n, a);
    var k := Safety.ExecutionEvidence(ss, itxs, |itxs|, request);
    i := at[k];
    AccountCall(ws, txs, n, a, ss, itxs, at, k);
    RunKeepsInv(ws, txs, i);
    AdminPays(ws[i], a, txs[i].caller);
    forall x | x in ss[k].Approvers(request) ensures exists j :: 0 <= j < i && ApprovedAt(ws, txs, j, a, request, x) {
      var j :| 0 <= j < k && Safety.ApprovedAt(ss, itxs, j, request, x);
      ApprovalTraced(ws, txs, n, a, ss, itxs, at, j, request, x);
      assert at[j] < at[k];
    }
  }

  /** A call that is not one of the protocol's own is the transaction of an account. */
  lemma AccountCall(ws: seq<State>, txs: seq<Tx>, n: nat, a: Address, ss: seq<I.State>, itxs: seq<I.Tx>, at: seq<nat>,
                    k: nat)
    requires n <= |txs| < |ws| && Traces(ws, txs, n, a, ss, itxs, at) && k < |itxs|
    requires !itxs[k].call.CallSetStatus? && !itxs[k].call.CallSetAdmin?
    ensures txs[at[k]] == Tx(itxs[k].caller, itxs[k].now, CallInstance(a, itxs[k].call))
    ensures a in ws[at[k]].instances && ws[at[k]].instances[a] == ss[k]
    ensures a in ws[at[k] + 1].instances && ws[at[k] + 1].instances[a] == ss[k + 1]
  {
    hide I.Execute, BornFor, CallOn, SameInstance;
    assert Traced(ws, txs, at[k], a, ss[k], itxs[k], ss[k + 1], k == 0);
    if k > 0 {
      OwnCall(ws[at[k]], txs[at[k]], a, itxs[k]);
    }
  }

  lemma OwnCall(w: State, tx: Tx, a: Address, itx: I.Tx)
    requires CallOn(w, tx, a) == Some(itx) && !itx.call.CallSetStatus? && !itx.call.CallSetAdmin?
    ensures tx == Tx(itx.caller, itx.now, CallInstance(a, itx.call))
  {
  }

  lemma ApprovalTraced(ws: seq<State>, txs: seq<Tx>, n: nat, a: Address, ss: seq<I.State>, itxs: seq<I.Tx>,
                       at: seq<nat>, j: nat, request: nat, x: Address)
    requires n <= |txs| < |ws| && Traces(ws, txs, n, a, ss, itxs, at)
    requires j < |itxs| && Safety.ApprovedAt(ss, itxs, j, request, x)
    ensures ApprovedAt(ws, txs, at[j], a, request, x)
  {
    hide Traces;
    AccountCall(ws, txs, n, a, ss, itxs, at, j);
  }

  /** Only the admin on record holds ADMIN_ROLE, and a verified instance has a verified masjid. */
  lemma AdminPays(w: State, a: Address, caller: Address)
    requires Inv(w) && a in w.instances && caller in w.instances[a].roles.admin && w.instances[a].status == I.Verified
    ensures var id := w.instances[a].id;
            && id in w.masjidById && w.Get(id).instance == a && caller == w.Get(id).masjidAdmin
            && w.Get(id).status == Verified
  {
    hide NamesInv, BlanksInv, RegistryInv, TermsInv, VotesInv, Safety.Inv;
    assert DeployedInv(w, a);
    assert MasjidInv(w, w.instances[a].id);
  }

  /** A run has no more request ids than steps, so in fewer than 2^63 steps every id fits an int64. */
  lemma {:induction false} RequestIdsAreFewerThanSteps(ws: seq<State>, txs: seq<Tx>, n: nat, a: Address)
    requires IsRun(ws, txs) && n <= |txs| && a in ws[n].instances
    ensures ws[n].instances[a].cashOutNonce <= n
    ensures forall id :: id in ws[n].instances[a].cashOutById ==> 1 <= id <= n
    ensures n < TWO_63 ==> forall id :: id in ws[n].instances[a].cashOutById ==> Wrap64(id) == id
  {
    hide Execute, Next, Inv, I.Next, I.Execute, BornFor, CallOn;
    if n == 0 {
      assert false;
    } else {
      RunKeepsInv(ws, txs, n - 1);
      RunKeepsInv(ws, txs, n);
      var move := StepMove(ws[n - 1], txs[n - 1], a);
      if move.Created? {
        BornForIsBorn(ws[n - 1], txs[n - 1].call.id, txs[n - 1].now, move.born);
        Safety.BornInv(move.born);
        Safety.NonceGrowsByAtMostOne(move.born, StatusCall(txs[n - 1].now, I.Verified));
      } else {
        RequestIdsAreFewerThanSteps(ws, txs, n - 1, a);
        if move.Called? {
          Safety.NonceGrowsByAtMostOne(ws[n - 1].instances[a], CallOn(ws[n - 1], txs[n - 1], a).value);
        }
      }
      IdsUpToNonce(ws[n], a);
    }
  }

  lemma IdsUpToNonce(w: State, a: Address)
    requires Inv(w) && a in w.instances
    ensures forall id :: id in w.instances[a].cashOutById ==> 1 <= id <= w.instances[a].cashOutNonce
  {
    hide NamesInv, BlanksInv, RegistryInv, MasjidsInv;
    assert DeployedInv(w, a);
  }

  lemma MoveOfRevoked(w: State, tx: Tx, w': State, a: Address, move: Move, request: nat)
    requires IsMove(w, tx, w', a, move) && a in w.instances
    requires Safety.Inv(w.instances[a]) && w.instances[a].status != I.Verified
    ensures w'.instances[a].Approvers(request) == w.instances[a].Approvers(request)
    ensures w'.instances[a].Request(request).executed == w.instances[a].Request(request).executed
  {
    hide Safety.Inv, I.Execute;
    if move.Called? {
      var s, itx := w.instances[a], CallOn(w, tx, a).value;
      if request in s.cashOutById { Safety.StepAdvances(s, itx, request); } else { UnknownHasNothing(s, request); }
      if s.Approvers(request) != w'.instances[a].Approvers(request) {
        var x :| x in w'.instances[a].Approvers(request) && x !in s.Approvers(request);
        Safety.NewApproverApproved(s, itx, request, x);
      }
      if !s.Request(request).executed && w'.instances[a].Request(request).executed {
        Safety.NewlyExecuted(s, itx, request);
      }
    }
  }

  lemma UnknownHasNothing(s: I.State, request: nat)
    requires Safety.Inv(s) && request !in s.cashOutById
    ensures s.Approvers(request) == {} && !s.Request(request).executed
  {
  }

  lemma RevokedInstance(w: State, id: MasjidId)
    requires Inv(w) && id in w.masjidById && w.Get(id).status == Revoked
    ensures w.Get(id).instance != Zero && w.Get(id).instance in w.instances
    ensures w.instances[w.Get(id).instance].status == I.Revoked && Safety.Inv(w.instances[w.Get(id).instance])
  {
    hide NamesInv, BlanksInv, RegistryInv, TermsInv, VotesInv, Safety.Inv;
    assert MasjidInv(w, id);
    assert DeployedInv(w, w.Get(id).instance);
  }

  /** After a masjid is revoked none of its requests ever gains an approval or is executed. */
  lemma {:induction false} RevokedPaysNothing(ws: seq<State>, txs: seq<Tx>, m: nat, n: nat, id: MasjidId, request: nat)
    requires IsRun(ws, txs) && m <= n <= |txs|
    requires id in ws[m].masjidById && ws[m].Get(id).status == Revoked
    ensures var a := ws[m].Get(id).instance;
            && a in ws[m].instances && a in ws[n].instances && ws[n].Get(id).instance == a
            && ws[n].instances[a].Approvers(request) == ws[m].instances[a].Approvers(request)
            && ws[n].instances[a].Request(request).executed == ws[m].instances[a].Request(request).executed
  {
    hide Execute, Inv, IsMove, Safety.Inv, Safety.Born, I.Next;
    if m == n {
      RunKeepsInv(ws, txs, m);
      RevokedInstance(ws[m], id);
    } else {
      RevokedPaysNothing(ws, txs, m, n - 1, id, request);
      RunKeepsInv(ws, txs, n - 1);
      RunKeepsInv(ws, txs, n);
      TerminalForever(ws, txs, m, n - 1, id);
      TerminalForever(ws, txs, m, n, id);
      RevokedInstance(ws[n - 1], id);
      RevokedInstance(ws[n], id);
      var a := ws[m].Get(id).instance;
      InstanceStays(ws[n - 1], txs[n - 1], id);
      var move := StepMove(ws[n - 1], txs[n - 1], a);
      MoveOfRevoked(ws[n - 1], txs[n - 1], ws[n], a, move, request);
    }
  }

  lemma InstanceStays(w: State, tx: Tx, id: MasjidId)
    requires Inv(w) && ValidTx(tx) && id in w.masjidById && w.Get(id).instance != Zero
    ensures Next(w, tx).Get(id).instance == w.Get(id).instance
  {
    hide Inv, Execute;
    StepEffect(w, tx, id);
  }
}
