/** The token call inside executeCashOut and cashIn can call the instance back before it returns, and
    the instance has no reentrancy guard. Calls are therefore trees: a call that reaches the token
    carries the calls the token makes meanwhile, each of which commits or reverts on its own. */
module Reentrancy {
  import opened Types
  import opened Instance
  import Safety = InstanceSafety

  datatype CallTree =
    | Simple(caller: Address, call: Call)
    | Executing(caller: Address, id: nat, during: Calls, paid: bool)
    | CashingIn(caller: Address, amount: nat, noteHash: nat, during: Calls, paid: bool)

  /** The calls made during a token call, in order. */
  datatype Calls = Done | Then(first: CallTree, rest: Calls)

  predicate ValidTree(t: CallTree) {
    match t
    case Simple(_, call) => ValidCall(call) && !call.CallExecute? && !call.CallCashIn?
    case Executing(_, _, during, _) => ValidTrees(during)
    case CashingIn(_, _, _, during, _) => ValidTrees(during)
  }

  predicate ValidTrees(ts: Calls) {
    ts.Then? ==> ValidTree(ts.first) && ValidTrees(ts.rest)
  }

  datatype Payment = Payment(id: nat, to: Address, amount: nat)

  /** Storage of the instance and the transfers it has asked the token for in committed calls. */
  datatype Books = Books(state: State, payments: seq<Payment>)

  /** Runs one call tree in a transaction mined at `now`. A revert undoes the calls made during it. */
  function Perform(b: Books, now: Timestamp, t: CallTree): Books
    requires ValidTree(t)
    decreases t
  {
    match t
    case Simple(caller, call) => b.(state := Next(b.state, Tx(caller, now, call)))
    case Executing(caller, id, during, paid) =>
      (match BeginExecution(b.state, caller, now, id)
       case Revert(_) => b
       case Ok(s) =>
         var request := s.Request(id);
         var paying := Books(s, b.payments + [Payment(id, request.to, request.amount)]);
         var after := PerformAll(paying, now, during);
         if paid then after else b)
    case CashingIn(_, amount, _, during, paid) =>
      if amount == 0 then b
      else
        var after := PerformAll(b, now, during);
        if paid then after else b
  }

  function PerformAll(b: Books, now: Timestamp, ts: Calls): Books
    requires ValidTrees(ts)
    decreases ts
  {
    match ts
    case Done => b
    case Then(first, rest) => PerformAll(Perform(b, now, first), now, rest)
  }

  // ---- Payout at most once ------------------------------------------------------------------

  function Paid(payments: seq<Payment>, id: nat): nat {
    if payments == [] then 0
    else (if payments[|payments| - 1].id == id then 1 else 0) + Paid(payments[..|payments| - 1], id)
  }

  /** Every request has been paid once if it is executed and never otherwise, and each payment is to the
      recipient and of the amount its request names. */
  ghost predicate PaidOnce(b: Books) {
    && Safety.Inv(b.state)
    && (forall id :: Paid(b.payments, id) == if b.state.Request(id).executed then 1 else 0)
    && (forall i :: 0 <= i < |b.payments| ==>
          Payment(b.payments[i].id, b.state.Request(b.payments[i].id).to, b.state.Request(b.payments[i].id).amount)
          == b.payments[i])
  }

  lemma {:induction false} PaidIsListed(payments: seq<Payment>, i: nat)
    requires i < |payments|
    ensures Paid(payments, payments[i].id) >= 1
  {
    if i < |payments| - 1 { PaidIsListed(payments[..|payments| - 1], i); }
  }

  lemma SimpleKeepsPaidOnce(b: Books, tx: Tx)
    requires PaidOnce(b) && ValidCall(tx.call) && !tx.call.CallExecute?
    ensures PaidOnce(b.(state := Next(b.state, tx)))
  {
    var s, s' := b.state, Next(b.state, tx);
    Safety.StepKeepsInv(s, tx);
    forall id ensures s'.Request(id).executed == s.Request(id).executed {
      if s'.Request(id).executed && !s.Request(id).executed { Safety.NewlyExecuted(s, tx, id); }
      if id in s.cashOutById { Safety.StepAdvances(s, tx, id); }
    }
    forall i | 0 <= i < |b.payments| ensures b.payments[i].id in s.cashOutById {
      PaidIsListed(b.payments, i);
      assert s.Request(b.payments[i].id).executed;
    }
    forall i | 0 <= i < |b.payments|
      ensures s'.Request(b.payments[i].id).to == b.payments[i].to
      ensures s'.Request(b.payments[i].id).amount == b.payments[i].amount
    {
      Safety.StepAdvances(s, tx, b.payments[i].id);
    }
  }

  lemma BeginKeepsPaidOnce(b: Books, caller: Address, now: Timestamp, id: nat)
    requires PaidOnce(b) && BeginExecution(b.state, caller, now, id).Ok?
    ensures var s := BeginExecution(b.state, caller, now, id).value;
            PaidOnce(Books(s, b.payments + [Payment(id, s.Request(id).to, s.Request(id).amount)]))
  {
    var s := BeginExecution(b.state, caller, now, id).value;
    var payments := b.payments + [Payment(id, s.Request(id).to, s.Request(id).amount)];
    Safety.BeginExecutionKeepsInv(b.state, caller, now, id);
    assert payments[..|payments| - 1] == b.payments;
    assert forall k :: Paid(payments, k) == (if k == id then 1 else 0) + Paid(b.payments, k);
  }

  /** Whatever the token does while it is being called, however deep, a call tree keeps `PaidOnce`. */
  lemma {:induction false} PayoutAtMostOnce(b: Books, now: Timestamp, t: CallTree)
    requires PaidOnce(b) && ValidTree(t)
    ensures PaidOnce(Perform(b, now, t))
    decreases t
  {
    hide PaidOnce;
    match t
    case Simple(caller, call) => SimpleKeepsPaidOnce(b, Tx(caller, now, call));
    case Executing(caller, id, during, paid) =>
      var begun := BeginExecution(b.state, caller, now, id);
      if begun.Ok? {
        BeginKeepsPaidOnce(b, caller, now, id);
        var request := begun.value.Request(id);
        PayoutsAtMostOnce(Books(begun.value, b.payments + [Payment(id, request.to, request.amount)]), now, during);
      }
    case CashingIn(_, amount, _, during, _) =>
      if amount != 0 { PayoutsAtMostOnce(b, now, during); }
  }

  lemma {:induction false} PayoutsAtMostOnce(b: Books, now: Timestamp, ts: Calls)
    requires PaidOnce(b) && ValidTrees(ts)
    ensures PaidOnce(PerformAll(b, now, ts))
    decreases ts
  {
    hide PaidOnce;
    if ts.Then? {
      PayoutAtMostOnce(b, now, ts.first);
      PayoutsAtMostOnce(Perform(b, now, ts.first), now, ts.rest);
    }
  }

  datatype Transaction = Transaction(now: Timestamp, tree: CallTree)

  function PerformRun(b: Books, txs: seq<Transaction>): Books
    requires forall tx :: tx in txs ==> ValidTree(tx.tree)
    decreases |txs|
  {
    if txs == [] then b
    else PerformRun(Perform(b, txs[0].now, txs[0].tree), txs[1..])
  }

  /** Over the whole life of an instance, with any reentrant token, a request is paid at most once, and
      it is paid if and only if it is executed. */
  lemma {:induction false} NoRequestIsPaidTwice(b: Books, txs: seq<Transaction>, id: nat)
    requires forall tx :: tx in txs ==> ValidTree(tx.tree)
    requires PaidOnce(b) || (Safety.Born(b.state) && b.payments == [])
    ensures var after := PerformRun(b, txs);
            && Paid(after.payments, id) <= 1
            && (Paid(after.payments, id) == 1 <==> after.state.Request(id).executed)
    decreases |txs|
  {
    if !PaidOnce(b) { Safety.BornInv(b.state); }
    if txs == [] {
    } else {
      assert ValidTree(txs[0].tree);
      PayoutAtMostOnce(b, txs[0].now, txs[0].tree);
      NoRequestIsPaidTwice(Perform(b, txs[0].now, txs[0].tree), txs[1..], id);
    }
  }

  // ---- Reentrant runs are flat runs ---------------------------------------------------------

  /** Every call made in a tree, each before the calls made during it. */
  function CallsOf(now: Timestamp, t: CallTree): seq<Tx>
    decreases t
  {
    match t
    case Simple(caller, call) => [Tx(caller, now, call)]
    case Executing(caller, id, during, paid) => [Tx(caller, now, CallExecute(id, paid))] + AllCallsOf(now, during)
    case CashingIn(caller, amount, noteHash, during, paid) =>
      [Tx(caller, now, CallCashIn(amount, noteHash, paid))] + AllCallsOf(now, during)
  }

  function AllCallsOf(now: Timestamp, ts: Calls): seq<Tx>
    decreases ts
  {
    match ts
    case Done => []
    case Then(first, rest) => CallsOf(now, first) + AllCallsOf(now, rest)
  }

  /** The calls of a tree that are not undone, in the order in which they change the storage: an execution
      marks its request before the token is called. */
  function Committed(b: Books, now: Timestamp, t: CallTree): seq<Tx>
    requires ValidTree(t)
    decreases t
  {
    match t
    case Simple(caller, call) => if Execute(b.state, Tx(caller, now, call)).Ok? then [Tx(caller, now, call)] else []
    case Executing(caller, id, during, paid) =>
      (match BeginExecution(b.state, caller, now, id)
       case Revert(_) => []
       case Ok(s) =>
         var request := s.Request(id);
         var paying := Books(s, b.payments + [Payment(id, request.to, request.amount)]);
         if paid then [Tx(caller, now, CallExecute(id, true))] + AllCommitted(paying, now, during) else [])
    case CashingIn(caller, amount, noteHash, during, paid) =>
      if amount != 0 && paid
      then AllCommitted(b, now, during) + [Tx(caller, now, CallCashIn(amount, noteHash, true))]
      else []
  }

  function AllCommitted(b: Books, now: Timestamp, ts: Calls): seq<Tx>
    requires ValidTrees(ts)
    decreases ts
  {
    match ts
    case Done => []
    case Then(first, rest) => Committed(b, now, first) + AllCommitted(Perform(b, now, first), now, rest)
  }

  function CommittedInRun(b: Books, txs: seq<Transaction>): seq<Tx>
    requires forall tx :: tx in txs ==> ValidTree(tx.tree)
    decreases |txs|
  {
    if txs == [] then []
    else Committed(b, txs[0].now, txs[0].tree) + CommittedInRun(Perform(b, txs[0].now, txs[0].tree), txs[1..])
  }

  /** Un-nested, the calls `txs` one after the other all commit and take `s` to `s'`. */
  ghost predicate Leads(s: State, txs: seq<Tx>, s': State)
    decreases |txs|
  {
    if txs == [] then s == s'
    else ValidCall(txs[0].call) && Execute(s, txs[0]).Ok? && Leads(Next(s, txs[0]), txs[1..], s')
  }

  lemma {:induction false} LeadsOn(s: State, a: seq<Tx>, s': State, b: seq<Tx>, s'': State)
    requires Leads(s, a, s') && Leads(s', b, s'')
    ensures Leads(s, a + b, s'')
    decreases |a|
  {
    hide Execute, Next;
    if a == [] {
      assert a + b == b;
    } else {
      assert (a + b)[0] == a[0] && (a + b)[1..] == a[1..] + b;
      LeadsOn(Next(s, a[0]), a[1..], s', b, s'');
    }
  }

  lemma LeadsByOne(s: State, tx: Tx)
    requires ValidCall(tx.call) && Execute(s, tx).Ok?
    ensures Leads(s, [tx], Next(s, tx))
  {
    hide Execute, Next;
    assert [tx][1..] == [];
  }

  /** Calls made at `now` in what `made` lists. */
  ghost predicate From(txs: seq<Tx>, now: Timestamp, made: seq<Tx>) {
    forall i :: 0 <= i < |txs| ==> txs[i].now == now && txs[i] in made
  }

  /** A call tree does to the storage exactly what those of its calls that are not undone do, un-nested, one
      after the other, and each of them commits there. */
  lemma {:induction false} TreesFlatten(b: Books, now: Timestamp, t: CallTree)
    requires ValidTree(t)
    ensures Leads(b.state, Committed(b, now, t), Perform(b, now, t).state)
    ensures From(Committed(b, now, t), now, CallsOf(now, t))
    decreases t
  {
    hide BeginExecution, Execute, Leads, Next;
    match t
    case Simple(caller, call) => SimpleLeads(b.state, Tx(caller, now, call));
    case Executing(caller, id, during, paid) =>
      var begun := BeginExecution(b.state, caller, now, id);
      if begun.Ok? && paid {
        var request := begun.value.Request(id);
        var paying := Books(begun.value, b.payments + [Payment(id, request.to, request.amount)]);
        var first := Tx(caller, now, CallExecute(id, true));
        ForestsFlatten(paying, now, during);
        PaidExecutionStep(b.state, first);
        LeadsByOne(b.state, first);
        LeadsOn(b.state, [first], paying.state, AllCommitted(paying, now, during), Perform(b, now, t).state);
      } else {
        NothingLeads(b.state);
      }
    case CashingIn(caller, amount, noteHash, during, paid) =>
      if amount != 0 && paid {
        var last, after := Tx(caller, now, CallCashIn(amount, noteHash, true)), PerformAll(b, now, during).state;
        ForestsFlatten(b, now, during);
        CashInStep(after, last);
        LeadsByOne(after, last);
        LeadsOn(b.state, AllCommitted(b, now, during), after, [last], after);
      } else {
        NothingLeads(b.state);
      }
  }

  lemma SimpleLeads(s: State, tx: Tx)
    requires ValidCall(tx.call)
    ensures Leads(s, if Execute(s, tx).Ok? then [tx] else [], Next(s, tx))
  {
    hide Execute;
    if Execute(s, tx).Ok? { LeadsByOne(s, tx); }
  }

  lemma NothingLeads(s: State)
    ensures Leads(s, [], s)
  {
  }

  lemma PaidExecutionStep(s: State, tx: Tx)
    requires tx.call.CallExecute? && tx.call.paid
    requires BeginExecution(s, tx.caller, tx.now, tx.call.id).Ok?
    ensures Execute(s, tx).Ok? && Next(s, tx) == BeginExecution(s, tx.caller, tx.now, tx.call.id).value
  {
  }

  lemma CashInStep(s: State, tx: Tx)
    requires tx.call.CallCashIn? && tx.call.paid && tx.call.amount != 0
    ensures Execute(s, tx).Ok? && Next(s, tx) == s
  {
  }

  lemma {:induction false} ForestsFlatten(b: Books, now: Timestamp, ts: Calls)
    requires ValidTrees(ts)
    ensures Leads(b.state, AllCommitted(b, now, ts), PerformAll(b, now, ts).state)
    ensures From(AllCommitted(b, now, ts), now, AllCallsOf(now, ts))
    decreases ts
  {
    hide Execute, Leads;
    match ts
    case Done => NothingLeads(b.state);
    case Then(first, rest) =>
      var after := Perform(b, now, first);
      TreesFlatten(b, now, first);
      ForestsFlatten(after, now, rest);
      LeadsOn(b.state, Committed(b, now, first), after.state, AllCommitted(after, now, rest),
              PerformAll(b, now, ts).state);
  }

  /** Block time never goes back. */
  ghost predicate Ordered(txs: seq<Transaction>) { forall i, j :: 0 <= i <= j < |txs| ==> txs[i].now <= txs[j].now }

  /** The call was made in one of the transactions. */
  ghost predicate MadeIn(txs: seq<Transaction>, tx: Tx) {
    exists i :: 0 <= i < |txs| && tx in CallsOf(txs[i].now, txs[i].tree) && tx.now == txs[i].now
  }

  lemma MadeFirst(txs: seq<Transaction>, tx: Tx)
    requires txs != [] && tx in CallsOf(txs[0].now, txs[0].tree) && tx.now == txs[0].now
    ensures MadeIn(txs, tx)
  {
    hide CallsOf;
  }

  lemma MadeLater(txs: seq<Transaction>, tx: Tx)
    requires txs != [] && Ordered(txs) && MadeIn(txs[1..], tx)
    ensures MadeIn(txs, tx) && txs[0].now <= tx.now
  {
    hide CallsOf;
    var later := txs[1..];
    var k :| 0 <= k < |later| && tx in CallsOf(later[k].now, later[k].tree) && tx.now == later[k].now;
    assert txs[k + 1] == later[k];
  }

  lemma {:induction false} RunsLead(b: Books, txs: seq<Transaction>)
    requires forall tx :: tx in txs ==> ValidTree(tx.tree)
    requires Ordered(txs)
    ensures var flat := CommittedInRun(b, txs);
            && Leads(b.state, flat, PerformRun(b, txs).state)
            && (forall i :: 0 <= i < |flat| ==> MadeIn(txs, flat[i]))
            && (forall i, j :: 0 <= i <= j < |flat| ==> flat[i].now <= flat[j].now)
    decreases |txs|
  {
    hide Leads, Perform, Committed, CallsOf, MadeIn;
    if txs == [] {
      NothingLeads(b.state);
    } else {
      var after := Perform(b, txs[0].now, txs[0].tree);
      var here, rest := Committed(b, txs[0].now, txs[0].tree), CommittedInRun(after, txs[1..]);
      assert ValidTree(txs[0].tree);
      TreesFlatten(b, txs[0].now, txs[0].tree);
      RunsLead(after, txs[1..]);
      LeadsOn(b.state, here, after.state, rest, PerformRun(b, txs).state);
      forall i | 0 <= i < |here + rest| ensures MadeIn(txs, (here + rest)[i]) && txs[0].now <= (here + rest)[i].now {
        if i < |here| { MadeFirst(txs, here[i]); } else { MadeLater(txs, rest[i - |here|]); }
      }
    }
  }

  /** The states that `txs` lead through from `s`. */
  function States(s: State, txs: seq<Tx>): (ss: seq<State>)
    requires forall tx :: tx in txs ==> ValidCall(tx.call)
    ensures |ss| == |txs| + 1 && ss[0] == s
    decreases |txs|
  {
    if txs == [] then [s] else [s] + States(Next(s, txs[0]), txs[1..])
  }

  lemma {:induction false} LeadsThrough(s: State, txs: seq<Tx>, s': State)
    requires Leads(s, txs, s')
    ensures (forall tx :: tx in txs ==> ValidCall(tx.call)) && States(s, txs)[|txs|] == s'
    ensures var ss := States(s, txs);
            forall i :: 0 <= i < |txs| ==> Execute(ss[i], txs[i]).Ok? && ss[i + 1] == Next(ss[i], txs[i])
    decreases |txs|
  {
    hide Execute, Next;
    if txs == [] {
    } else {
      LeadsThrough(Next(s, txs[0]), txs[1..], s');
      assert forall tx :: tx in txs ==> tx == txs[0] || tx in txs[1..];
      var ss, rest := States(s, txs), States(Next(s, txs[0]), txs[1..]);
      forall i | 0 <= i < |txs| ensures Execute(ss[i], txs[i]).Ok? && ss[i + 1] == Next(ss[i], txs[i]) {
        if i > 0 { assert ss[i] == rest[i - 1] && txs[i] == txs[1..][i - 1] && ss[i + 1] == rest[i]; }
      }
    }
  }

  /** Over a life of an instance with a token that calls back, the calls that are not undone make, un-nested
      and in order, a run of the instance: they lead from its construction to the same storage, each of them
      commits, and each was made in one of the transactions at that time. What is proved of runs holds of them. */
  lemma RunsFlatten(b: Books, txs: seq<Transaction>) returns (ss: seq<State>)
    requires forall tx :: tx in txs ==> ValidTree(tx.tree)
    requires Ordered(txs) && Safety.Born(b.state)
    ensures var flat := CommittedInRun(b, txs);
            && Safety.IsRun(ss, flat) && ss[0] == b.state && ss[|flat|] == PerformRun(b, txs).state
            && (forall i :: 0 <= i < |flat| ==> Execute(ss[i], flat[i]).Ok? && MadeIn(txs, flat[i]))
  {
    hide Execute, Next, Leads, States, CommittedInRun, PerformRun, MadeIn, Safety.Born;
    var flat := CommittedInRun(b, txs);
    RunsLead(b, txs);
    LeadsThrough(b.state, flat, PerformRun(b, txs).state);
    ss := States(b.state, flat);
  }

  /** So a request executed under a token that calls back was executed by a call made in one of the
      transactions, with every guard met and the threshold of its approvers, each of whom approved by an
      earlier call made in one of them. */
  lemma ReentrantPayoutHasEvidence(b: Books, txs: seq<Transaction>, id: nat) returns (ss: seq<State>, k: nat)
    requires forall tx :: tx in txs ==> ValidTree(tx.tree)
    requires Ordered(txs) && Safety.Born(b.state) && PerformRun(b, txs).state.Request(id).executed
    ensures var flat := CommittedInRun(b, txs);
            && Safety.IsRun(ss, flat) && ss[|flat|] == PerformRun(b, txs).state
            && k < |flat| && Safety.ExecutedAt(ss, flat, k, id)
            && (forall i :: 0 <= i < |flat| ==> MadeIn(txs, flat[i]))
  {
    hide Safety.IsRun, Safety.ExecutedAt, CommittedInRun, PerformRun, MadeIn, Safety.Born, Execute;
    ss := RunsFlatten(b, txs);
    k := Safety.ExecutionEvidence(ss, CommittedInRun(b, txs), |CommittedInRun(b, txs)|, id);
  }
}
