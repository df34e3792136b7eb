/** The ERC-20 of the contract tests, in place: a call that reverts puts back what it had written. */
module TokenContract {
  import opened Types
  import T = Treasury

  class MockERC20 {
    var balanceOf: map<Address, nat>
    var allowance: map<(Address, Address), nat>

    constructor ()
      ensures Ledger() == T.Ledger(map[], map[])
    {
      balanceOf, allowance := map[], map[];
    }

    function Ledger(): T.Ledger
      reads this
    {
      T.Ledger(balanceOf, allowance)
    }

    /** Whether the call commits, and the ledger it leaves: the specification's, or the old one. */
    ghost predicate Settled(ok: bool, was: T.Ledger, spec: Result<T.Ledger>)
      reads this
    {
      ok == spec.Ok? && Ledger() == if ok then spec.value else was
    }

    method Mint(to: Address, amount: nat) returns (ok: bool)
      modifies this
      ensures Settled(ok, old(Ledger()), T.Mint(old(Ledger()), to, amount))
    {
      if Ledger().BalanceOf(to) + amount > MAX_UINT256 { return false; }
      balanceOf := balanceOf[to := Ledger().BalanceOf(to) + amount];
      ok := true;
    }

    method Approve(caller: Address, spender: Address, amount: nat)
      modifies this
      ensures Ledger() == T.Approve(old(Ledger()), caller, spender, amount)
    {
      allowance := allowance[(caller, spender) := amount];
    }

    method Move(from: Address, to: Address, amount: nat) returns (ok: bool)
      requires Ledger().BalanceOf(from) >= amount
      modifies this`balanceOf
      ensures Settled(ok, old(Ledger()), T.Transfer(old(Ledger()), from, to, amount))
    {
      var saved := balanceOf;
      balanceOf := balanceOf[from := Ledger().BalanceOf(from) - amount];
      var credited := Ledger().BalanceOf(to) + amount;
      if credited > MAX_UINT256 {
        balanceOf := saved;
        return false;
      }
      balanceOf := balanceOf[to := credited];
      ok := true;
    }

    method Transfer(caller: Address, to: Address, amount: nat) returns (ok: bool)
      modifies this
      ensures Settled(ok, old(Ledger()), T.Transfer(old(Ledger()), caller, to, amount))
    {
      if Ledger().BalanceOf(caller) < amount { return false; }
      ok := Move(caller, to, amount);
    }

    method TransferFrom(caller: Address, from: Address, to: Address, amount: nat) returns (ok: bool)
      modifies this
      ensures Settled(ok, old(Ledger()), T.TransferFrom(old(Ledger()), caller, from, to, amount))
    {
      if Ledger().BalanceOf(from) < amount { return false; }
      if Ledger().Allowance(from, caller) < amount { return false; }
      var saved := allowance;
      allowance := allowance[(from, caller) := Ledger().Allowance(from, caller) - amount];
      ok := Move(from, to, amount);
      if !ok { allowance := saved; }
    }
  }
}
