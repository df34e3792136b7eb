/** One instance and the ERC-20 ledger that holds its money (the MockERC20 of the contract tests). */
module Treasury {
  import opened Types
  import opened Instance
  import Safety = InstanceSafety

  // ---- The ledger ---------------------------------------------------------------------------

  datatype Ledger = Ledger(balances: map<Address, nat>, allowances: map<(Address, Address), nat>) {
    function BalanceOf(a: Address): nat { if a in balances then balances[a] else 0 }

    function Allowance(owner: Address, spender: Address): nat {
      if (owner, spender) in allowances then allowances[(owner, spender)] else 0
    }

    function WithBalance(a: Address, amount: nat): Ledger { this.(balances := balances[a := amount]) }
  }

  function Mint(l: Ledger, to: Address, amount: nat): Result<Ledger> {
    if l.BalanceOf(to) + amount > MAX_UINT256 then Revert(Panic)
    else Ok(l.WithBalance(to, l.BalanceOf(to) + amount))
  }

  function Approve(l: Ledger, caller: Address, spender: Address, amount: nat): Ledger {
    l.(allowances := l.allowances[(caller, spender) := amount])
  }

  /** The debit is written before the credit is read, so a transfer to oneself changes nothing. */
  function Transfer(l: Ledger, caller: Address, to: Address, amount: nat): Result<Ledger> {
    if l.BalanceOf(caller) < amount then Revert(InsufficientBalance)
    else
      var debited := l.WithBalance(caller, l.BalanceOf(caller) - amount);
      if debited.BalanceOf(to) + amount > MAX_UINT256 then Revert(Panic)
      else Ok(debited.WithBalance(to, debited.BalanceOf(to) + amount))
  }

  function TransferFrom(l: Ledger, caller: Address, from: Address, to: Address, amount: nat): Result<Ledger> {
    if l.BalanceOf(from) < amount then Revert(InsufficientBalance)
    else if l.Allowance(from, caller) < amount then Revert(InsufficientAllowance)
    else
      var spent := l.(allowances := l.allowances[(from, caller) := l.Allowance(from, caller) - amount]);
      Transfer(spent, from, to, amount)
  }

  // ---- Instance and ledger together ---------------------------------------------------------

  /** `received` adds up what reached the instance from elsewhere; nothing in the system reads it. */
  datatype Books = Books(state: State, ledger: Ledger, received: nat)

  datatype Action =
    | MintTo(to: Address, amount: nat)
    | Allow(caller: Address, spender: Address, amount: nat)
    | Send(caller: Address, to: Address, amount: nat)
    | SendFrom(caller: Address, from: Address, to: Address, amount: nat)
    | OnInstance(tx: Tx)

  /** The instance is a contract: it never signs a token call of its own accord. */
  predicate Admissible(self: Address, a: Action) {
    match a
    case MintTo(_, _) => true
    case Allow(caller, _, _) => caller != self
    case Send(caller, _, _) => caller != self
    case SendFrom(caller, _, _, _) => caller != self
    case OnInstance(tx) => tx.caller != self && ValidCall(tx.call)
  }

  function Arriving(self: Address, from: Address, to: Address, amount: nat): nat {
    if to == self && from != self then amount else 0
  }

  function Settle(b: Books, r: Result<Ledger>, arriving: nat): Books {
    match r
    case Ok(ledger) => b.(ledger := ledger, received := b.received + arriving)
    case Revert(_) => b
  }

  /** cashIn and executeCashOut with the ledger's answer in place of the `paid` flag. */
  function Act(b: Books, self: Address, a: Action): Books
    requires Admissible(self, a)
  {
    match a
    case MintTo(to, amount) => Settle(b, Mint(b.ledger, to, amount), if to == self then amount else 0)
    case Allow(caller, spender, amount) => b.(ledger := Approve(b.ledger, caller, spender, amount))
    case Send(caller, to, amount) =>
      Settle(b, Transfer(b.ledger, caller, to, amount), Arriving(self, caller, to, amount))
    case SendFrom(caller, from, to, amount) =>
      Settle(b, TransferFrom(b.ledger, caller, from, to, amount), Arriving(self, from, to, amount))
    case OnInstance(tx) =>
      match tx.call
      case CallCashIn(amount, noteHash, _) =>
        var moved := TransferFrom(b.ledger, self, tx.caller, self, amount);
        if CashIn(b.state, tx.caller, amount, noteHash, moved.Ok?).Ok? then Settle(b, moved, amount) else b
      case CallExecute(id, _) =>
        var request := b.state.Request(id);
        var moved := Transfer(b.ledger, self, request.to, request.amount);
        (match ExecuteCashOut(b.state, tx.caller, tx.now, id, moved.Ok?)
         case Ok(effect) => Settle(b.(state := effect.state), moved, 0)
         case Revert(_) => b)
      case _ => b.(state := Next(b.state, tx))
  }

  // ---- Conservation -------------------------------------------------------------------------

  function Outgoing(r: CashOut, self: Address): nat {
    if r.executed && r.to != self then r.amount else 0
  }

  /** What the executed requests among the first `n` sent away from the instance. */
  function PaidOut(s: State, self: Address, n: nat): nat {
    if n == 0 then 0 else Outgoing(s.Request(n), self) + PaidOut(s, self, n - 1)
  }

  ghost predicate Conserved(b: Books, self: Address) {
    && Safety.Inv(b.state)
    && b.ledger.BalanceOf(self) + PaidOut(b.state, self, b.state.cashOutNonce) == b.received
    && GrantsNothing(b.ledger, self)
  }

  /** The instance never approves a spender. */
  ghost predicate GrantsNothing(l: Ledger, self: Address) {
    forall spender :: l.Allowance(self, spender) == 0
  }

  lemma SameAllowances(l: Ledger, l': Ledger, self: Address)
    requires GrantsNothing(l, self) && l'.allowances == l.allowances
    ensures GrantsNothing(l', self)
  {
    forall spender ensures l'.Allowance(self, spender) == 0 { assert l.Allowance(self, spender) == 0; }
  }

  lemma {:induction false} PaidOutSame(s: State, s': State, self: Address, n: nat)
    requires forall id :: 1 <= id <= n ==> Outgoing(s'.Request(id), self) == Outgoing(s.Request(id), self)
    ensures PaidOut(s', self, n) == PaidOut(s, self, n)
  {
    if n == 0 {
    } else {
      PaidOutSame(s, s', self, n - 1);
    }
  }

  lemma {:induction false} PaidOutAdds(s: State, s': State, self: Address, n: nat, id: nat)
    requires 1 <= id <= n
    requires forall k :: 1 <= k <= n && k != id ==> s'.Request(k) == s.Request(k)
    requires !s.Request(id).executed && s'.Request(id) == s.Request(id).(executed := true)
    ensures PaidOut(s', self, n) == PaidOut(s, self, n) + Outgoing(s'.Request(id), self)
  {
    if id == n {
      PaidOutSame(s, s', self, n - 1);
    } else {
      PaidOutAdds(s, s', self, n - 1, id);
    }
  }

  lemma TransferMoves(l: Ledger, caller: Address, to: Address, amount: nat, who: Address)
    requires Transfer(l, caller, to, amount).Ok?
    ensures var l' := Transfer(l, caller, to, amount).value;
            && l'.allowances == l.allowances
            && l'.BalanceOf(who)
               == l.BalanceOf(who) - (if who == caller then amount else 0) + (if who == to then amount else 0)
  {
  }

  lemma SpendingGrantsNothing(l: Ledger, self: Address, caller: Address, from: Address, to: Address, amount: nat)
    requires GrantsNothing(l, self) && TransferFrom(l, caller, from, to, amount).Ok?
    ensures GrantsNothing(TransferFrom(l, caller, from, to, amount).value, self)
    ensures from == self ==> amount == 0
  {
    hide Transfer, Ledger.BalanceOf;
    var spent := l.(allowances := l.allowances[(from, caller) := l.Allowance(from, caller) - amount]);
    TransferMoves(spent, from, to, amount, self);
    var l' := TransferFrom(l, caller, from, to, amount).value;
    forall spender ensures l'.Allowance(self, spender) == 0 { assert l.Allowance(self, spender) == 0; }
  }

  lemma SpendingMoves(l: Ledger, caller: Address, from: Address, to: Address, amount: nat, who: Address)
    requires TransferFrom(l, caller, from, to, amount).Ok?
    ensures TransferFrom(l, caller, from, to, amount).value.BalanceOf(who)
            == l.BalanceOf(who) - (if who == from then amount else 0) + (if who == to then amount else 0)
  {
  }

  lemma SpendingConserves(b: Books, self: Address, caller: Address, from: Address, to: Address, amount: nat)
    requires Conserved(b, self) && TransferFrom(b.ledger, caller, from, to, amount).Ok?
    ensures Conserved(Settle(b, TransferFrom(b.ledger, caller, from, to, amount), Arriving(self, from, to, amount)),
                      self)
  {
    hide TransferFrom, GrantsNothing, Ledger.BalanceOf, Safety.Inv;
    SpendingMoves(b.ledger, caller, from, to, amount, self);
    SpendingGrantsNothing(b.ledger, self, caller, from, to, amount);
  }

  lemma ExecutionConserves(b: Books, self: Address, tx: Tx)
    requires Conserved(b, self) && tx.call.CallExecute? && Admissible(self, OnInstance(tx))
    ensures Conserved(Act(b, self, OnInstance(tx)), self)
  {
    hide Transfer, PaidOut, MAX_UINT256;
    var id := tx.call.id;
    var request := b.state.Request(id);
    var moved := Transfer(b.ledger, self, request.to, request.amount);
    var r := ExecuteCashOut(b.state, tx.caller, tx.now, id, moved.Ok?);
    if r.Ok? {
      var s' := r.value.state;
      TransferMoves(b.ledger, self, request.to, request.amount, self);
      Safety.BeginExecutionKeepsInv(b.state, tx.caller, tx.now, id);
      PaidOutAdds(b.state, s', self, s'.cashOutNonce, id);
      SameAllowances(b.ledger, moved.value, self);
    }
  }

  lemma OnlyExecutionPays(s: State, tx: Tx, self: Address, id: nat)
    requires Safety.Inv(s) && ValidCall(tx.call) && !tx.call.CallExecute?
    ensures Outgoing(Next(s, tx).Request(id), self) == Outgoing(s.Request(id), self)
  {
    hide Execute, Next, Safety.Inv;
    if Next(s, tx).Request(id).executed && !s.Request(id).executed { Safety.NewlyExecuted(s, tx, id); }
    if id in s.cashOutById { Safety.StepAdvances(s, tx, id); }
  }

  lemma OtherCallsConserve(b: Books, self: Address, tx: Tx)
    requires Conserved(b, self) && ValidCall(tx.call) && !tx.call.CallExecute?
    ensures Conserved(b.(state := Next(b.state, tx)), self)
  {
    hide Execute, Next, Outgoing, PaidOut;
    var s, s' := b.state, Next(b.state, tx);
    Safety.StepKeepsInv(s, tx);
    forall id: nat ensures Outgoing(s'.Request(id), self) == Outgoing(s.Request(id), self) {
      OnlyExecutionPays(s, tx, self, id);
    }
    Safety.NonceGrowsByAtMostOne(s, tx);
    PaidOutSame(s, s', self, s.cashOutNonce);
    if s'.cashOutNonce > s.cashOutNonce { NothingProposedYet(s', s, self); }
  }

  lemma NothingProposedYet(s': State, s: State, self: Address)
    requires Safety.Inv(s) && s'.cashOutNonce == s.cashOutNonce + 1
    requires Outgoing(s'.Request(s'.cashOutNonce), self) == Outgoing(s.Request(s'.cashOutNonce), self)
    ensures PaidOut(s', self, s'.cashOutNonce) == PaidOut(s', self, s.cashOutNonce)
  {
  }

  lemma ActConserves(b: Books, self: Address, a: Action)
    requires Conserved(b, self) && Admissible(self, a)
    ensures Conserved(Act(b, self, a), self)
  {
    match a
    case MintTo(to, amount) =>
      if Mint(b.ledger, to, amount).Ok? { SameAllowances(b.ledger, Mint(b.ledger, to, amount).value, self); }
    case Allow(caller, spender, amount) =>
      var ledger := Approve(b.ledger, caller, spender, amount);
      forall other ensures ledger.Allowance(self, other) == 0 { assert b.ledger.Allowance(self, other) == 0; }
    case Send(caller, to, amount) =>
      if Transfer(b.ledger, caller, to, amount).Ok? {
        TransferMoves(b.ledger, caller, to, amount, self);
        SameAllowances(b.ledger, Transfer(b.ledger, caller, to, amount).value, self);
      }
    case SendFrom(caller, from, to, amount) =>
      if TransferFrom(b.ledger, caller, from, to, amount).Ok? {
        SpendingConserves(b, self, caller, from, to, amount);
      }
    case OnInstance(tx) =>
      match tx.call
      case CallCashIn(amount, _, _) =>
        if TransferFrom(b.ledger, self, tx.caller, self, amount).Ok? {
          SpendingConserves(b, self, self, tx.caller, self, amount);
        }
      case CallExecute(_, _) => ExecutionConserves(b, self, tx);
      case _ => OtherCallsConserve(b, self, tx);
  }

  function ActAll(b: Books, self: Address, actions: seq<Action>): Books
    requires forall a :: a in actions ==> Admissible(self, a)
    decreases |actions|
  {
    if actions == [] then b else ActAll(Act(b, self, actions[0]), self, actions[1..])
  }

  /** From its construction on, whatever anyone does with the token or the instance, the instance's
      balance is what it received minus the amounts of its executed requests to somebody else. */
  lemma {:induction false} BalanceIsReceivedMinusPaidOut(b: Books, self: Address, actions: seq<Action>)
    requires forall a :: a in actions ==> Admissible(self, a)
    requires || Conserved(b, self)
             || (&& Safety.Born(b.state)
                 && b.received == b.ledger.BalanceOf(self)
                 && GrantsNothing(b.ledger, self))
    ensures var after := ActAll(b, self, actions);
            after.ledger.BalanceOf(self) == after.received - PaidOut(after.state, self, after.state.cashOutNonce)
    decreases |actions|
  {
    if Safety.Born(b.state) { Safety.BornInv(b.state); }
    if actions == [] {
    } else {
      assert Admissible(self, actions[0]);
      ActConserves(b, self, actions[0]);
      BalanceIsReceivedMinusPaidOut(Act(b, self, actions[0]), self, actions[1..]);
    }
  }

  // ---- Every account's balance and allowance ------------------------------------------------

  /** A movement of `amount` is possible: the payer has it, and the payee's balance stays a uint256. */
  predicate CanMove(l: Ledger, from: Address, to: Address, amount: nat) {
    amount <= l.BalanceOf(from) && (to == from || l.BalanceOf(to) + amount <= MAX_UINT256)
  }

  predicate CanSpend(l: Ledger, spender: Address, from: Address, to: Address, amount: nat) {
    amount <= l.Allowance(from, spender) && CanMove(l, from, to, amount)
  }

  /** The money an action moves when it commits: from whom, or None for fresh money, to whom, and how much. */
  datatype Movement = Movement(from: Option<Address>, to: Address, amount: nat)

  /** An action moves money exactly when the ledger can; a payout moves its request's amount to its recipient. */
  function MoneyOf(b: Books, self: Address, a: Action): Option<Movement>
    requires Admissible(self, a)
  {
    match a
    case MintTo(to, amount) =>
      if b.ledger.BalanceOf(to) + amount <= MAX_UINT256 then Some(Movement(None, to, amount)) else None
    case Allow(_, _, _) => None
    case Send(caller, to, amount) =>
      if CanMove(b.ledger, caller, to, amount) then Some(Movement(Some(caller), to, amount)) else None
    case SendFrom(caller, from, to, amount) =>
      if CanSpend(b.ledger, caller, from, to, amount) then Some(Movement(Some(from), to, amount)) else None
    case OnInstance(tx) =>
      match tx.call
      case CallCashIn(amount, _, _) =>
        if amount > 0 && CanSpend(b.ledger, self, tx.caller, self, amount)
        then Some(Movement(Some(tx.caller), self, amount)) else None
      case CallExecute(id, _) =>
        var request := b.state.Request(id);
        if BeginExecution(b.state, tx.caller, tx.now, id).Ok? && CanMove(b.ledger, self, request.to, request.amount)
        then Some(Movement(Some(self), request.to, request.amount)) else None
      case _ => None
  }

  lemma TransferCommitsExactlyWhen(l: Ledger, caller: Address, to: Address, amount: nat)
    requires forall x :: l.BalanceOf(x) <= MAX_UINT256
    ensures Transfer(l, caller, to, amount).Ok? <==> CanMove(l, caller, to, amount)
  {
    hide MAX_UINT256;
    assert l.BalanceOf(caller) <= MAX_UINT256;
  }

  lemma SpendingCommitsExactlyWhen(l: Ledger, caller: Address, from: Address, to: Address, amount: nat)
    requires forall x :: l.BalanceOf(x) <= MAX_UINT256
    ensures TransferFrom(l, caller, from, to, amount).Ok? <==> CanSpend(l, caller, from, to, amount)
  {
    hide MAX_UINT256, Transfer;
    if l.BalanceOf(from) >= amount && l.Allowance(from, caller) >= amount {
      var spent := l.(allowances := l.allowances[(from, caller) := l.Allowance(from, caller) - amount]);
      assert forall x :: spent.BalanceOf(x) == l.BalanceOf(x);
      TransferCommitsExactlyWhen(spent, from, to, amount);
    }
  }

  /** What the movement does to the balance of `who`. */
  function Moved(m: Option<Movement>, who: Address): int {
    if m.None? then 0
    else (if m.value.to == who then m.value.amount else 0) - (if m.value.from == Some(who) then m.value.amount else 0)
  }

  /** Every account's balance moves by exactly the money the action moves: nothing is lost, made or misdirected. */
  lemma BalancesFollow(b: Books, self: Address, a: Action, who: Address)
    requires Admissible(self, a) && forall x :: b.ledger.BalanceOf(x) <= MAX_UINT256
    ensures Act(b, self, a).ledger.BalanceOf(who) == b.ledger.BalanceOf(who) + Moved(MoneyOf(b, self, a), who)
  {
    hide MAX_UINT256, Transfer, TransferFrom, CanMove, CanSpend, BeginExecution, ProposeCashOut;
    match a
    case MintTo(_, _) =>
    case Allow(_, _, _) =>
    case Send(caller, to, amount) => SendFollows(b.ledger, caller, to, amount, who);
    case SendFrom(caller, from, to, amount) => SendFromFollows(b.ledger, caller, from, to, amount, who);
    case OnInstance(tx) =>
      match tx.call
      case CallCashIn(amount, _, _) => SendFromFollows(b.ledger, self, tx.caller, self, amount, who);
      case CallExecute(id, _) =>
        SendFollows(b.ledger, self, b.state.Request(id).to, b.state.Request(id).amount, who);
      case _ =>
  }

  lemma SendFollows(l: Ledger, caller: Address, to: Address, amount: nat, who: Address)
    requires forall x :: l.BalanceOf(x) <= MAX_UINT256
    ensures var r := Transfer(l, caller, to, amount);
            && (r.Ok? <==> CanMove(l, caller, to, amount))
            && (r.Ok? ==> r.value.BalanceOf(who)
                          == l.BalanceOf(who) + Moved(Some(Movement(Some(caller), to, amount)), who))
  {
    hide MAX_UINT256, Transfer, CanMove;
    TransferCommitsExactlyWhen(l, caller, to, amount);
    if Transfer(l, caller, to, amount).Ok? { TransferMoves(l, caller, to, amount, who); }
  }

  lemma SendFromFollows(l: Ledger, caller: Address, from: Address, to: Address, amount: nat, who: Address)
    requires forall x :: l.BalanceOf(x) <= MAX_UINT256
    ensures var r := TransferFrom(l, caller, from, to, amount);
            && (r.Ok? <==> CanSpend(l, caller, from, to, amount))
            && (r.Ok? ==> r.value.BalanceOf(who)
                          == l.BalanceOf(who) + Moved(Some(Movement(Some(from), to, amount)), who))
  {
    hide MAX_UINT256, TransferFrom, CanSpend;
    SpendingCommitsExactlyWhen(l, caller, from, to, amount);
    if TransferFrom(l, caller, from, to, amount).Ok? { SpendingMoves(l, caller, from, to, amount, who); }
  }

  /** The money moved by a whole sequence of actions, as far as `who` is concerned. */
  function MovedInAll(b: Books, self: Address, actions: seq<Action>, who: Address): int
    requires forall a :: a in actions ==> Admissible(self, a)
    decreases |actions|
  {
    if actions == [] then 0
    else Moved(MoneyOf(b, self, actions[0]), who) + MovedInAll(Act(b, self, actions[0]), self, actions[1..], who)
  }

  lemma BalancesStayWords(b: Books, self: Address, a: Action)
    requires Admissible(self, a) && forall x :: b.ledger.BalanceOf(x) <= MAX_UINT256
    ensures forall x :: Act(b, self, a).ledger.BalanceOf(x) <= MAX_UINT256
  {
    hide Act, MoneyOf, MAX_UINT256, CanMove, CanSpend;
    forall x ensures Act(b, self, a).ledger.BalanceOf(x) <= MAX_UINT256 {
      BalancesFollow(b, self, a, x);
      MoneyFits(b, self, a, x);
    }
  }

  lemma MoneyFits(b: Books, self: Address, a: Action, x: Address)
    requires Admissible(self, a) && b.ledger.BalanceOf(x) <= MAX_UINT256
    ensures b.ledger.BalanceOf(x) + Moved(MoneyOf(b, self, a), x) <= MAX_UINT256
  {
    hide MAX_UINT256, BeginExecution;
  }

  /** Over any sequence of token and instance calls every account's balance is what it was plus what the committed
      ones of them moved to it, minus what they moved away. */
  lemma {:induction false} EveryBalanceIsAccountedFor(b: Books, self: Address, actions: seq<Action>, who: Address)
    requires forall a :: a in actions ==> Admissible(self, a)
    requires forall x :: b.ledger.BalanceOf(x) <= MAX_UINT256
    ensures ActAll(b, self, actions).ledger.BalanceOf(who)
            == b.ledger.BalanceOf(who) + MovedInAll(b, self, actions, who)
    decreases |actions|
  {
    hide Act, MoneyOf, MAX_UINT256, Moved;
    if actions == [] {
    } else {
      assert Admissible(self, actions[0]);
      BalancesFollow(b, self, actions[0], who);
      BalancesStayWords(b, self, actions[0]);
      EveryBalanceIsAccountedFor(Act(b, self, actions[0]), self, actions[1..], who);
    }
  }

  /** What an action leaves of an allowance: what its owner set, or what the spender has not spent. */
  lemma AllowancesFollow(b: Books, self: Address, a: Action, owner: Address, spender: Address)
    requires Admissible(self, a) && forall x :: b.ledger.BalanceOf(x) <= MAX_UINT256
    ensures var was, now := b.ledger.Allowance(owner, spender), Act(b, self, a).ledger.Allowance(owner, spender);
            match a
            case Allow(caller, to, amount) => now == if (caller, to) == (owner, spender) then amount else was
            case SendFrom(caller, from, _, amount) =>
              now == if MoneyOf(b, self, a).Some? && (from, caller) == (owner, spender) then was - amount else was
            case OnInstance(tx) =>
              now == if tx.call.CallCashIn? && MoneyOf(b, self, a).Some? && (tx.caller, self) == (owner, spender)
                    then was - tx.call.amount else was
            case _ => now == was
  {
    hide MAX_UINT256, CanMove, CanSpend, BeginExecution, ProposeCashOut, Transfer, TransferFrom, Ledger.Allowance,
         Ledger.BalanceOf;
    match a
    case MintTo(_, _) => SameAllowancesRead(b.ledger, Act(b, self, a).ledger, owner, spender);
    case Allow(caller, to, amount) => ApprovalWrites(b.ledger, caller, to, amount, owner, spender);
    case Send(caller, to, amount) => SendSpends(b.ledger, caller, to, amount, owner, spender);
    case SendFrom(caller, from, to, amount) => SendFromSpends(b.ledger, caller, from, to, amount, owner, spender);
    case OnInstance(tx) =>
      match tx.call
      case CallCashIn(amount, _, _) => SendFromSpends(b.ledger, self, tx.caller, self, amount, owner, spender);
      case CallExecute(id, _) =>
        SendSpends(b.ledger, self, b.state.Request(id).to, b.state.Request(id).amount, owner, spender);
      case _ =>
  }

  lemma SameAllowancesRead(l: Ledger, l': Ledger, owner: Address, spender: Address)
    requires l'.allowances == l.allowances
    ensures l'.Allowance(owner, spender) == l.Allowance(owner, spender)
  {
  }

  lemma ApprovalWrites(l: Ledger, caller: Address, to: Address, amount: nat, owner: Address, spender: Address)
    ensures Approve(l, caller, to, amount).Allowance(owner, spender)
            == if (caller, to) == (owner, spender) then amount else l.Allowance(owner, spender)
  {
  }

  lemma SendSpends(l: Ledger, caller: Address, to: Address, amount: nat, owner: Address, spender: Address)
    ensures var r := Transfer(l, caller, to, amount);
            r.Ok? ==> r.value.Allowance(owner, spender) == l.Allowance(owner, spender)
  {
    hide MAX_UINT256, Transfer;
    if Transfer(l, caller, to, amount).Ok? { TransferMoves(l, caller, to, amount, caller); }
  }

  lemma SendFromSpends(l: Ledger, caller: Address, from: Address, to: Address, amount: nat, owner: Address,
                       spender: Address)
    requires forall x :: l.BalanceOf(x) <= MAX_UINT256
    ensures var r := TransferFrom(l, caller, from, to, amount);
            && (r.Ok? <==> CanSpend(l, caller, from, to, amount))
            && (r.Ok? ==> r.value.Allowance(owner, spender)
                          == l.Allowance(owner, spender) - (if (from, caller) == (owner, spender) then amount else 0))
  {
    hide MAX_UINT256, Transfer, CanSpend;
    SpendingCommitsExactlyWhen(l, caller, from, to, amount);
    if TransferFrom(l, caller, from, to, amount).Ok? {
      var spent := l.(allowances := l.allowances[(from, caller) := l.Allowance(from, caller) - amount]);
      TransferMoves(spent, from, to, amount, from);
    }
  }

  /** The request is executed exactly when the money moves. */
  lemma ExecutedExactlyWhenMoved(b: Books, self: Address, tx: Tx)
    requires Admissible(self, OnInstance(tx)) && tx.call.CallExecute?
    requires forall x :: b.ledger.BalanceOf(x) <= MAX_UINT256
    ensures var id, after := tx.call.id, Act(b, self, OnInstance(tx));
            if MoneyOf(b, self, OnInstance(tx)).Some?
            then !b.state.Request(id).executed && after.state.Request(id).executed else after == b
  {
    hide MAX_UINT256, CanMove, Transfer;
    var request := b.state.Request(tx.call.id);
    SendFollows(b.ledger, self, request.to, request.amount, self);
  }
}
