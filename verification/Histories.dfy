/** The instances in runs of the whole system: each request goes back to the step that proposed it, each
    settlement to the step that settled it, and whether a call commits is said by the steps before it. */
module Histories {
  import opened Types
  import opened World
  import opened WorldSafety
  import opened Governance
  import opened InstanceRuns
  import I = Instance

  // ---- One call -----------------------------------------------------------------------------

  /** What a proposal asks for, as it is stored. */
  function Asked(tx: I.Tx): I.CashOut
    requires tx.call.CallPropose?
  {
    var c := tx.call;
    I.CashOut(c.to, c.amount, c.noteHash, tx.caller, tx.now, (tx.now + c.expiresInSeconds) % TWO_64, 0, false, false)
  }

  /** A request appears only by a board member's proposal on a verified instance, under the next id, with what
      the proposal asks for. */
  lemma NewRequestWasAsked(s: I.State, tx: I.Tx, r: nat)
    requires Safety.Inv(s) && I.ValidCall(tx.call) && r !in s.cashOutById && r in I.Next(s, tx).cashOutById
    ensures tx.call.CallPropose? && tx.caller in s.roles.board && s.status == I.Verified
    ensures tx.call.to != Zero && tx.call.amount > 0 && tx.call.expiresInSeconds > 0
    ensures r == s.cashOutNonce + 1 && I.Next(s, tx).cashOutById[r] == Asked(tx)
  {
    if Safety.Governance(tx.call) {
      Safety.GovernanceFrame(s, tx);
    }
  }

  lemma NewlyCanceled(s: I.State, tx: I.Tx, r: nat)
    requires Safety.Inv(s) && I.ValidCall(tx.call)
    requires !s.Request(r).canceled && I.Next(s, tx).Request(r).canceled
    ensures tx.call == I.CallCancel(r) && tx.caller in s.roles.admin
    ensures r in s.cashOutById && !s.Request(r).executed
  {
    hide Safety.Inv;
    if Safety.Governance(tx.call) {
      Safety.GovernanceFrame(s, tx);
    }
  }

  // ---- Steps of a run -----------------------------------------------------------------------

  /** Step `j` is the proposal of request `r`: sent to the instance by a member of its board while protocol and
      instance have the masjid verified, it is stored under the next id as it asks. */
  ghost predicate ProposedAt(ws: seq<State>, txs: seq<Tx>, j: nat, a: Address, r: nat)
    requires j < |txs| < |ws|
  {
    && IsProposal(txs[j], a) && a in ws[j].instances && a in ws[j + 1].instances
    && var s, s' := ws[j].instances[a], ws[j + 1].instances[a];
    && txs[j].caller in s.roles.board && s.status == I.Verified && ws[j].Get(s.id).status == Verified
    && var c := Proposal(txs[j]).call;
    && c.to != Zero && c.amount > 0 && c.expiresInSeconds > 0
    && r !in s.cashOutById && r == s.cashOutNonce + 1 && s'.cashOutNonce == r
    && r in s'.cashOutById && s'.cashOutById[r] == Asked(Proposal(txs[j]))
  }

  predicate IsProposal(tx: Tx, a: Address) {
    tx.call.CallInstance? && tx.call.instance == a && tx.call.call.CallPropose?
  }

  /** The call a proposing transaction makes. */
  function Proposal(tx: Tx): I.Tx
    requires tx.call.CallInstance?
  {
    I.Tx(tx.caller, tx.now, tx.call.call)
  }

  /** Step `k` canceled the request: sent by a holder of ADMIN_ROLE while it was not settled. */
  ghost predicate CanceledAt(ws: seq<State>, txs: seq<Tx>, k: nat, a: Address, r: nat)
    requires k < |txs| < |ws|
  {
    && txs[k].call == CallInstance(a, I.CallCancel(r))
    && a in ws[k].instances && a in ws[k + 1].instances
    && var s, s' := ws[k].instances[a], ws[k + 1].instances[a];
    && txs[k].caller in s.roles.admin
    && r in s.cashOutById && !s.Request(r).executed && !s.Request(r).canceled && s'.Request(r).canceled
  }

  /** The stored request is what the proposal asked for, but for its tally and its settlement. */
  predicate AsAsked(stored: I.CashOut, tx: Tx)
    requires tx.call.CallInstance? && tx.call.call.CallPropose?
  {
    stored
    == Asked(Proposal(tx)).(approvals := stored.approvals, executed := stored.executed, canceled := stored.canceled)
  }

  /** A call that the protocol does not make of its own accord is the account's. */
  lemma OwnMove(w: State, tx: Tx, w': State, a: Address, move: Move)
    requires IsMove(w, tx, w', a, move) && move.Called?
    requires !CallOn(w, tx, a).value.call.CallSetStatus? && !CallOn(w, tx, a).value.call.CallSetAdmin?
    ensures tx == Tx(tx.caller, tx.now, CallInstance(a, CallOn(w, tx, a).value.call))
    ensures CallOn(w, tx, a).value == I.Tx(tx.caller, tx.now, tx.call.call)
  {
    hide I.Next, I.Execute, BornFor;
    OwnCall(w, tx, a, CallOn(w, tx, a).value);
  }

  lemma CreatedIsBlank(w: State, tx: Tx, w': State, a: Address, move: Move)
    requires IsMove(w, tx, w', a, move) && move.Created?
    ensures w'.instances[a].cashOutById == map[] && w'.instances[a].approvers == map[]
    ensures w'.instances[a].createdAt == tx.now && w'.instances[a].verifiedAt == tx.now
  {
    hide CallOn;
  }

  lemma DeployedInvOf(w: State, a: Address)
    requires Inv(w) && a in w.instances
    ensures Safety.Inv(w.instances[a])
    ensures var id := w.instances[a].id;
            && id in w.masjidById && w.Get(id).instance == a && w.instances[a].status == Mirrored(w.Get(id).status)
    ensures w.instances[a].roles.protocol == {Protocol} && w.instances[a].roles.root == {}
    ensures w.instances[a].roles.admin <= {w.Get(w.instances[a].id).masjidAdmin}
  {
    hide RegistryInv, NamesInv, BlanksInv, TermsInv, VotesInv, Safety.Inv;
    assert DeployedInv(w, a);
    assert MasjidInv(w, w.instances[a].id);
  }

  // ---- Where requests come from -------------------------------------------------------------

  /** In every run each stored request of each deployed instance was proposed at one step, and its recipient,
      amount, note, proposer and times are what that step asked for. */
  lemma {:induction false} RequestIsOnRecord(ws: seq<State>, txs: seq<Tx>, n: nat, a: Address, r: nat) returns (j: nat)
    requires IsRun(ws, txs) && n <= |txs| && a in ws[n].instances && r in ws[n].instances[a].cashOutById
    ensures j < n && ProposedAt(ws, txs, j, a, r) && AsAsked(ws[n].instances[a].cashOutById[r], txs[j])
  {
    hide Execute, Next, Inv, I.Next, I.Execute, IsMove, ProposedAt, Asked;
    if n == 0 {
      assert false;
    } else {
      RunKeepsInv(ws, txs, n - 1);
      var w, tx := ws[n - 1], txs[n - 1];
      var move := StepMove(w, tx, a);
      if move.Created? {
        CreatedIsBlank(w, tx, ws[n], a, move);
        assert false;
      } else {
        MovedWasThere(w, tx, ws[n], a, move);
        DeployedInvOf(w, a);
        if r in w.instances[a].cashOutById {
          j := RequestIsOnRecord(ws, txs, n - 1, a, r);
          MoveAdvances(w, tx, ws[n], a, move, r);
        } else {
          j := n - 1;
          MoveProposes(ws, txs, j, a, move, r);
        }
      }
    }
  }

  /** No second step proposes the same request. */
  lemma ProposedOnce(ws: seq<State>, txs: seq<Tx>, i: nat, j: nat, a: Address, r: nat)
    requires IsRun(ws, txs) && i <= j < |txs| && ProposedAt(ws, txs, i, a, r) && ProposedAt(ws, txs, j, a, r)
    ensures i == j
  {
    hide Execute, Next, Inv, Asked;
    if i < j { StoredStays(ws, txs, i + 1, j, a, r); }
  }

  lemma MoveAdvances(w: State, tx: Tx, w': State, a: Address, move: Move, r: nat)
    requires IsMove(w, tx, w', a, move) && !move.Created? && a in w.instances && Safety.Inv(w.instances[a])
    ensures r in w.instances[a].cashOutById ==> Safety.Advances(w.instances[a], w'.instances[a], r)
  {
    hide I.Next, I.Execute, CallOn, BornFor, Safety.Inv;
    if move.Called? && r in w.instances[a].cashOutById {
      Safety.StepAdvances(w.instances[a], CallOn(w, tx, a).value, r);
    }
  }

  lemma MoveProposes(ws: seq<State>, txs: seq<Tx>, j: nat, a: Address, move: Move, r: nat)
    requires j < |txs| < |ws| && IsMove(ws[j], txs[j], ws[j + 1], a, move) && !move.Created? && Inv(ws[j])
    requires a in ws[j].instances && r !in ws[j].instances[a].cashOutById && r in ws[j + 1].instances[a].cashOutById
    ensures ProposedAt(ws, txs, j, a, r) && AsAsked(ws[j + 1].instances[a].cashOutById[r], txs[j])
  {
    hide I.Execute, CallOn, BornFor, Inv;
    DeployedInvOf(ws[j], a);
    var itx := CallOn(ws[j], txs[j], a).value;
    NewRequestWasAsked(ws[j].instances[a], itx, r);
    OwnMove(ws[j], txs[j], ws[j + 1], a, move);
    MirroredVerified(ws[j], a);
    NonceAfterProposal(ws[j].instances[a], itx);
  }

  lemma NonceAfterProposal(s: I.State, tx: I.Tx)
    requires tx.call.CallPropose? && I.ValidCall(tx.call) && I.Execute(s, tx).Ok?
    ensures I.Next(s, tx).cashOutNonce == s.cashOutNonce + 1
  {
  }

  lemma MirroredVerified(w: State, a: Address)
    requires Inv(w) && a in w.instances
    ensures w.instances[a].status == I.Verified <==> w.Get(w.instances[a].id).status == Verified
  {
    hide Inv;
    DeployedInvOf(w, a);
  }

  /** What a step pays, it pays as an earlier step asked. */
  lemma PayoutWasAsked(ws: seq<State>, txs: seq<Tx>, n: nat, a: Address, r: nat) returns (j: nat, i: nat)
    requires IsRun(ws, txs) && n <= |txs| && a in ws[n].instances && ws[n].instances[a].Request(r).executed
    ensures j < i < n && ProposedAt(ws, txs, j, a, r) && ExecutedAt(ws, txs, i, a, r)
    ensures AsAsked(ws[i].instances[a].Request(r), txs[j])
  {
    hide Execute, Next, Inv, I.Next, I.Execute, ProposedAt, Asked;
    i := EveryPayoutHasEvidence(ws, txs, n, a, r);
    PaidIsStored(ws, txs, i, a, r);
    j := RequestIsOnRecord(ws, txs, i, a, r);
  }

  lemma PaidIsStored(ws: seq<State>, txs: seq<Tx>, i: nat, a: Address, r: nat)
    requires IsRun(ws, txs) && i < |txs| && ExecutedAt(ws, txs, i, a, r)
    ensures r in ws[i].instances[a].cashOutById
  {
    hide Next, Execute, Inv;
    RunKeepsInv(ws, txs, i);
    DeployedInvOf(ws[i], a);
    TalliedIsStored(ws[i].instances[a], r);
  }

  lemma TalliedIsStored(s: I.State, r: nat)
    requires Safety.Inv(s) && |s.Approvers(r)| >= 1
    ensures r in s.cashOutById
  {
  }

  // ---- What the steps before say of a state -------------------------------------------------

  ghost predicate EverProposed(ws: seq<State>, txs: seq<Tx>, n: nat, a: Address, r: nat)
    requires n <= |txs| < |ws|
  {
    exists j :: 0 <= j < n && ProposedAt(ws, txs, j, a, r)
  }

  ghost predicate EverApproved(ws: seq<State>, txs: seq<Tx>, n: nat, a: Address, r: nat, account: Address)
    requires n <= |txs| < |ws|
  {
    exists j :: 0 <= j < n && ApprovedAt(ws, txs, j, a, r, account)
  }

  ghost predicate EverExecuted(ws: seq<State>, txs: seq<Tx>, n: nat, a: Address, r: nat)
    requires n <= |txs| < |ws|
  {
    exists j :: 0 <= j < n && ExecutedAt(ws, txs, j, a, r)
  }

  ghost predicate EverCanceled(ws: seq<State>, txs: seq<Tx>, n: nat, a: Address, r: nat)
    requires n <= |txs| < |ws|
  {
    exists j :: 0 <= j < n && CanceledAt(ws, txs, j, a, r)
  }

  /** A stored request stays, and only moves on. */
  lemma {:induction false} StoredStays(ws: seq<State>, txs: seq<Tx>, m: nat, n: nat, a: Address, r: nat)
    requires IsRun(ws, txs) && m <= n <= |txs| && a in ws[m].instances && r in ws[m].instances[a].cashOutById
    ensures a in ws[n].instances && Safety.Advances(ws[m].instances[a], ws[n].instances[a], r)
  {
    hide Execute, Next, Inv, IsMove;
    if m == n {
    } else {
      StoredStays(ws, txs, m, n - 1, a, r);
      RunKeepsInv(ws, txs, n - 1);
      InstancePersists(ws[n - 1], txs[n - 1], a);
      var move := StepMove(ws[n - 1], txs[n - 1], a);
      NotCreatedAgain(ws[n - 1], txs[n - 1], ws[n], a, move);
      DeployedInvOf(ws[n - 1], a);
      MoveAdvances(ws[n - 1], txs[n - 1], ws[n], a, move, r);
    }
  }

  lemma NotCreatedAgain(w: State, tx: Tx, w': State, a: Address, move: Move)
    requires IsMove(w, tx, w', a, move) && a in w.instances
    ensures !move.Created?
  {
    hide I.Next, I.Execute, CallOn, BornFor;
  }

  lemma InstancePersists(w: State, tx: Tx, a: Address)
    requires Inv(w) && ValidTx(tx) && a in w.instances
    ensures a in Next(w, tx).instances
  {
    hide RegistryInv, NamesInv, BlanksInv, Next, Safety.Inv, TermsInv, VotesInv;
    assert DeployedInv(w, a);
    var id := w.instances[a].id;
    InstanceStays(w, tx, id);
    StepKeepsInv(w, tx);
    StepEffect(w, tx, id);
    assert MasjidInv(Next(w, tx), id);
  }

  lemma ApprovalIsOnRecord(ws: seq<State>, txs: seq<Tx>, n: nat, a: Address, r: nat, account: Address) returns (j: nat)
    requires IsRun(ws, txs) && n <= |txs| && a in ws[n].instances && account in ws[n].instances[a].Approvers(r)
    ensures j < n && ApprovedAt(ws, txs, j, a, r, account)
  {
    hide Execute, Next, Inv, I.Execute, Safety.IsRun, Safety.ApprovedAt, ApprovedAt, BornFor;
    var ss, itxs, at := InstancesRun(ws, txs, n, a);
    var k := Safety.ApprovalEvidence(ss, itxs, |itxs|, r, account);
    ApprovalTraced(ws, txs, n, a, ss, itxs, at, k, r, account);
    j := at[k];
  }

  lemma {:induction false} CancellationIsOnRecord(ws: seq<State>, txs: seq<Tx>, n: nat, a: Address, r: nat)
      returns (k: nat)
    requires IsRun(ws, txs) && n <= |txs| && a in ws[n].instances && ws[n].instances[a].Request(r).canceled
    ensures k < n && CanceledAt(ws, txs, k, a, r)
  {
    hide Execute, Next, Inv, I.Next, I.Execute, IsMove, CanceledAt;
    if n == 0 {
      assert false;
    } else {
      RunKeepsInv(ws, txs, n - 1);
      var w, tx := ws[n - 1], txs[n - 1];
      var move := StepMove(w, tx, a);
      if move.Created? {
        CreatedIsBlank(w, tx, ws[n], a, move);
        assert false;
      } else {
        MovedWasThere(w, tx, ws[n], a, move);
        if w.instances[a].Request(r).canceled {
          k := CancellationIsOnRecord(ws, txs, n - 1, a, r);
        } else {
          k := n - 1;
          MoveCancels(ws, txs, k, a, move, r);
        }
      }
    }
  }

  lemma MoveCancels(ws: seq<State>, txs: seq<Tx>, k: nat, a: Address, move: Move, r: nat)
    requires k < |txs| < |ws| && IsMove(ws[k], txs[k], ws[k + 1], a, move) && !move.Created? && Inv(ws[k])
    requires a in ws[k].instances && !ws[k].instances[a].Request(r).canceled
    requires ws[k + 1].instances[a].Request(r).canceled
    ensures CanceledAt(ws, txs, k, a, r)
  {
    hide I.Next, I.Execute, CallOn, BornFor, Inv;
    DeployedInvOf(ws[k], a);
    NewlyCanceled(ws[k].instances[a], CallOn(ws[k], txs[k], a).value, r);
    OwnMove(ws[k], txs[k], ws[k + 1], a, move);
  }

  /** In every reachable state the storage of a deployed instance says exactly what happened: a request is stored
      if some step proposed it, an account is marked if it approved at some step, and a request is executed or
      canceled if some step did that. */
  lemma StorageSaysWhatHappened(ws: seq<State>, txs: seq<Tx>, n: nat, a: Address, r: nat)
    requires IsRun(ws, txs) && n <= |txs| && a in ws[n].instances
    ensures var s := ws[n].instances[a];
            && (r in s.cashOutById <==> EverProposed(ws, txs, n, a, r))
            && (s.Request(r).executed <==> EverExecuted(ws, txs, n, a, r))
            && (s.Request(r).canceled <==> EverCanceled(ws, txs, n, a, r))
            && (forall v :: v in s.Approvers(r) <==> EverApproved(ws, txs, n, a, r, v))
  {
    hide Execute, Next, Inv, Initial, ProposedAt, ApprovedAt, ExecutedAt, CanceledAt;
    var s := StateOf(ws, txs, n, a);
    if r in s.cashOutById { var j := RequestIsOnRecord(ws, txs, n, a, r); }
    if s.Request(r).executed { var j := EveryPayoutHasEvidence(ws, txs, n, a, r); }
    if s.Request(r).canceled { var j := CancellationIsOnRecord(ws, txs, n, a, r); }
    forall v | v in s.Approvers(r) ensures EverApproved(ws, txs, n, a, r, v) {
      var j := ApprovalIsOnRecord(ws, txs, n, a, r, v);
    }
    WhatHappenedIsStored(ws, txs, n, a, r);
  }

  lemma StateOf(ws: seq<State>, txs: seq<Tx>, n: nat, a: Address) returns (s: I.State)
    requires IsRun(ws, txs) && n <= |txs| && a in ws[n].instances
    ensures n < |ws| && s == ws[n].instances[a]
  {
    s := ws[n].instances[a];
  }

  lemma WhatHappenedIsStored(ws: seq<State>, txs: seq<Tx>, n: nat, a: Address, r: nat)
    requires IsRun(ws, txs) && n <= |txs| && a in ws[n].instances
    ensures var s := ws[n].instances[a];
            && (EverProposed(ws, txs, n, a, r) ==> r in s.cashOutById)
            && (EverExecuted(ws, txs, n, a, r) ==> s.Request(r).executed)
            && (EverCanceled(ws, txs, n, a, r) ==> s.Request(r).canceled)
            && (forall v :: EverApproved(ws, txs, n, a, r, v) ==> v in s.Approvers(r))
  {
    hide Execute, Next, Inv, Initial, ProposedAt, ApprovedAt, ExecutedAt, CanceledAt;
    if j :| 0 <= j < n && ProposedAt(ws, txs, j, a, r) { ProposedIsStored(ws, txs, j, n, a, r); }
    if j :| 0 <= j < n && ExecutedAt(ws, txs, j, a, r) { ExecutedIsStored(ws, txs, j, n, a, r); }
    if j :| 0 <= j < n && CanceledAt(ws, txs, j, a, r) { CanceledIsStored(ws, txs, j, n, a, r); }
    forall v | EverApproved(ws, txs, n, a, r, v) ensures v in ws[n].instances[a].Approvers(r) {
      var j :| 0 <= j < n && ApprovedAt(ws, txs, j, a, r, v);
      ApprovedIsStored(ws, txs, j, n, a, r, v);
    }
  }

  lemma ProposedIsStored(ws: seq<State>, txs: seq<Tx>, j: nat, n: nat, a: Address, r: nat)
    requires IsRun(ws, txs) && j < n <= |txs| && ProposedAt(ws, txs, j, a, r)
    ensures a in ws[n].instances && r in ws[n].instances[a].cashOutById
  {
    hide Execute, Next, Inv, Asked;
    StoredStays(ws, txs, j + 1, n, a, r);
  }

  lemma ExecutedIsStored(ws: seq<State>, txs: seq<Tx>, j: nat, n: nat, a: Address, r: nat)
    requires IsRun(ws, txs) && j < n <= |txs| && ExecutedAt(ws, txs, j, a, r)
    ensures a in ws[n].instances && ws[n].instances[a].Request(r).executed
  {
    hide Execute, Next, Inv;
    PaidIsStored(ws, txs, j, a, r);
    StoredStays(ws, txs, j, j + 1, a, r);
    StoredStays(ws, txs, j + 1, n, a, r);
  }

  lemma CanceledIsStored(ws: seq<State>, txs: seq<Tx>, j: nat, n: nat, a: Address, r: nat)
    requires IsRun(ws, txs) && j < n <= |txs| && CanceledAt(ws, txs, j, a, r)
    ensures a in ws[n].instances && ws[n].instances[a].Request(r).canceled
  {
    hide Execute, Next, Inv;
    StoredStays(ws, txs, j, j + 1, a, r);
    StoredStays(ws, txs, j + 1, n, a, r);
  }

  lemma ApprovedIsStored(ws: seq<State>, txs: seq<Tx>, j: nat, n: nat, a: Address, r: nat, v: Address)
    requires IsRun(ws, txs) && j < n <= |txs| && ApprovedAt(ws, txs, j, a, r, v)
    ensures a in ws[n].instances && v in ws[n].instances[a].Approvers(r)
  {
    hide Execute, Next, Inv;
    RunKeepsInv(ws, txs, j + 1);
    DeployedInvOf(ws[j + 1], a);
    ApproverIsStored(ws[j + 1].instances[a], r, v);
    StoredStays(ws, txs, j + 1, n, a, r);
  }

  lemma ApproverIsStored(s: I.State, r: nat, v: Address)
    requires Safety.Inv(s) && v in s.Approvers(r)
    ensures r in s.cashOutById
  {
  }

  // ---- Exactly when a call commits ----------------------------------------------------------

  /** The masjid of the instance is verified on both sides. */
  ghost predicate Open(w: State, a: Address) { a in w.instances && w.Get(w.instances[a].id).status == Verified }

  /** A step before proposed the request, it has not expired at `now`, and no step has settled it. */
  ghost predicate Pending(ws: seq<State>, txs: seq<Tx>, n: nat, a: Address, r: nat)
    requires n <= |txs| < |ws|
  {
    EverProposed(ws, txs, n, a, r) && !EverExecuted(ws, txs, n, a, r) && !EverCanceled(ws, txs, n, a, r)
  }

  ghost predicate InTime(ws: seq<State>, txs: seq<Tx>, n: nat, a: Address, r: nat, now: nat)
    requires n <= |txs| < |ws|
  {
    forall j :: 0 <= j < n && ProposedAt(ws, txs, j, a, r) ==>
                  now <= (txs[j].now + Proposal(txs[j]).call.expiresInSeconds) % TWO_64
  }

  /** In every reachable state an execution commits exactly when the token pays, a holder of ADMIN_ROLE sends it, the
      masjid is verified, a step before proposed the request, none has settled it, its proposal's lifetime is not
      over, and the accounts that approved it at steps before are at least as many as the threshold. */
  lemma ExecutionCommitsExactlyWhen(ws: seq<State>, txs: seq<Tx>, n: nat, tx: Tx, a: Address, r: nat, paid: bool,
                                    approvers: set<Address>)
    requires IsRun(ws, txs) && n <= |txs| && ValidTx(tx) && tx.call == CallInstance(a, I.CallExecute(r, paid))
    requires a in ws[n].instances && forall v :: v in approvers <==> EverApproved(ws, txs, n, a, r, v)
    ensures Execute(ws[n], tx).Ok? <==>
            && paid && tx.caller in ws[n].instances[a].roles.admin && Open(ws[n], a)
            && Pending(ws, txs, n, a, r) && InTime(ws, txs, n, a, r, tx.now)
            && ws[n].instances[a].cashOutThreshold <= |approvers|
  {
    hide Inv, IsRun, EverProposed, EverApproved, EverExecuted, EverCanceled, InTime;
    var s := StateOf(ws, txs, n, a);
    RunKeepsInv(ws, txs, n);
    DeployedInvOf(ws[n], a);
    MirroredVerified(ws[n], a);
    StorageSaysWhatHappened(ws, txs, n, a, r);
    assert s.Approvers(r) == approvers;
    if r in s.cashOutById {
      StoredExpiry(ws, txs, n, a, r, tx.now);
      assert Safety.RequestInv(s, r);
    }
  }

  /** The stored expiry is that of the proposal. */
  lemma StoredExpiry(ws: seq<State>, txs: seq<Tx>, n: nat, a: Address, r: nat, now: nat)
    requires IsRun(ws, txs) && n <= |txs| && a in ws[n].instances && r in ws[n].instances[a].cashOutById
    ensures now <= ws[n].instances[a].cashOutById[r].expiresAt <==> InTime(ws, txs, n, a, r, now)
  {
    hide Execute, Next, Inv;
    var k := RequestIsOnRecord(ws, txs, n, a, r);
    forall j | 0 <= j < n && ProposedAt(ws, txs, j, a, r)
      ensures ws[n].instances[a].cashOutById[r].expiresAt
              == (txs[j].now + Proposal(txs[j]).call.expiresInSeconds) % TWO_64
    {
      StoredStays(ws, txs, j + 1, n, a, r);
    }
  }

  /** An approval commits exactly when a board member sends it, the masjid is verified, a step before proposed the
      request, none has settled it, its lifetime is not over and the member has not approved at a step before. */
  lemma ApprovalCommitsExactlyWhen(ws: seq<State>, txs: seq<Tx>, n: nat, tx: Tx, a: Address, r: nat)
    requires IsRun(ws, txs) && n <= |txs| && ValidTx(tx) && tx.call == CallInstance(a, I.CallApprove(r))
    requires a in ws[n].instances && |ws[n].instances[a].Approvers(r)| < MAX_UINT32
    ensures Execute(ws[n], tx).Ok? <==>
            && tx.caller in ws[n].instances[a].roles.board && Open(ws[n], a)
            && Pending(ws, txs, n, a, r) && InTime(ws, txs, n, a, r, tx.now)
            && !EverApproved(ws, txs, n, a, r, tx.caller)
  {
    hide Inv, IsRun, EverProposed, EverApproved, EverExecuted, EverCanceled, InTime;
    var s := StateOf(ws, txs, n, a);
    RunKeepsInv(ws, txs, n);
    DeployedInvOf(ws[n], a);
    MirroredVerified(ws[n], a);
    StorageSaysWhatHappened(ws, txs, n, a, r);
    if r in s.cashOutById {
      StoredExpiry(ws, txs, n, a, r, tx.now);
      assert Safety.RequestInv(s, r);
    }
  }

  /** A cancellation commits exactly when a holder of ADMIN_ROLE sends it, a step before proposed the request and
      none has settled it; status and time do not matter. */
  lemma CancellationCommitsExactlyWhen(ws: seq<State>, txs: seq<Tx>, n: nat, tx: Tx, a: Address, r: nat)
    requires IsRun(ws, txs) && n <= |txs| && ValidTx(tx) && tx.call == CallInstance(a, I.CallCancel(r))
    requires a in ws[n].instances
    ensures Execute(ws[n], tx).Ok? <==> tx.caller in ws[n].instances[a].roles.admin && Pending(ws, txs, n, a, r)
  {
    hide Inv, IsRun, EverProposed, EverApproved, EverExecuted, EverCanceled;
    var s := StateOf(ws, txs, n, a);
    RunKeepsInv(ws, txs, n);
    DeployedInvOf(ws[n], a);
    StorageSaysWhatHappened(ws, txs, n, a, r);
    if r in s.cashOutById { assert Safety.RequestInv(s, r); }
  }

  /** A proposal commits exactly when a board member sends it, the masjid is verified, and it names a recipient, an
      amount and a lifetime; it is then stored under the next id as it asks. */
  lemma ProposalCommitsExactlyWhen(w: State, tx: Tx, a: Address)
    requires Inv(w) && ValidTx(tx) && IsProposal(tx, a) && a in w.instances && w.instances[a].cashOutNonce < MAX_UINT256
    ensures var c, s := tx.call.call, w.instances[a];
            && (Execute(w, tx).Ok? <==>
                && tx.caller in s.roles.board && Open(w, a)
                && c.to != Zero && c.amount > 0 && c.expiresInSeconds > 0)
            && (Execute(w, tx).Ok? ==>
                  && a in Next(w, tx).instances
                  && Next(w, tx).instances[a].cashOutById == s.cashOutById[s.cashOutNonce + 1 := Asked(Proposal(tx))])
  {
    hide Inv, MAX_UINT256;
    DeployedInvOf(w, a);
    MirroredVerified(w, a);
  }
}
