/** The token contracts as the host runs them: storage updated in place. */
module TokenHost {
  import opened Wrappers
  import opened Limits
  import opened MandateTypes
  import opened TokenSpec

  class TokenContracts {
    var balances: map<(Address, Address), I128>
    var allowances: map<(Address, Address, Address), I128>
    var failing: set<Address>

    function Snapshot(): Tokens
      reads this
    {
      Tokens(balances, allowances, failing)
    }

    constructor ()
      ensures Snapshot() == Tokens(map[], map[], {})
    {
      balances, allowances, failing := map[], map[], {};
    }

    /** The host discards every write of an invocation that fails. */
    method Restore(saved: Tokens)
      modifies this
      ensures Snapshot() == saved
    {
      balances, allowances, failing := saved.balances, saved.allowances, saved.failing;
    }

    method BalanceOf(asset: Address, holder: Address) returns (balance: I128)
      ensures balance == Balance(Snapshot(), asset, holder)
    {
      balance := if (asset, holder) in balances then balances[(asset, holder)] else 0;
    }

    method AllowanceOf(asset: Address, owner: Address, spender: Address) returns (allowance: I128)
      ensures allowance == Allowance(Snapshot(), asset, owner, spender)
    {
      allowance := if (asset, owner, spender) in allowances then allowances[(asset, owner, spender)] else 0;
    }

    method MoveBalance(asset: Address, from: Address, to: Address, amount: I128) returns (ok: bool)
      modifies this
      ensures ok == TokenSpec.MoveBalance(old(Snapshot()), asset, from, to, amount).Some?
      ensures ok ==> Snapshot() == TokenSpec.MoveBalance(old(Snapshot()), asset, from, to, amount).value
    {
      var fromBalance := BalanceOf(asset, from);
      var updatedFrom := CheckedI128(fromBalance - amount);
      if updatedFrom.None? || updatedFrom.value < 0 { return false; }
      var toBalance := BalanceOf(asset, to);
      var updatedTo := CheckedI128(toBalance + amount);
      if updatedTo.None? { return false; }
      balances := balances[(asset, from) := updatedFrom.value];
      balances := balances[(asset, to) := updatedTo.value];
      return true;
    }

    method Mint(asset: Address, to: Address, amount: I128) returns (ok: bool)
      modifies this
      ensures ok == TokenSpec.Mint(old(Snapshot()), asset, to, amount).Some?
      ensures Snapshot() == if ok then TokenSpec.Mint(old(Snapshot()), asset, to, amount).value else old(Snapshot())
    {
      if amount <= 0 { return false; }
      var current := BalanceOf(asset, to);
      var updated := CheckedI128(current + amount);
      if updated.None? { return false; }
      balances := balances[(asset, to) := updated.value];
      return true;
    }

    method Approve(auth: set<Address>, asset: Address, from: Address, spender: Address, amount: I128) returns (ok: bool)
      modifies this
      ensures ok == TokenSpec.Approve(old(Snapshot()), auth, asset, from, spender, amount).Some?
      ensures Snapshot() == if ok then TokenSpec.Approve(old(Snapshot()), auth, asset, from, spender, amount).value else old(Snapshot())
    {
      if from !in auth { return false; }
      allowances := allowances[(asset, from, spender) := amount];
      return true;
    }

    method Transfer(auth: set<Address>, asset: Address, from: Address, to: Address, amount: I128) returns (ok: bool)
      modifies this
      ensures ok == TokenSpec.Transfer(old(Snapshot()), auth, asset, from, to, amount).Some?
      ensures ok ==> Snapshot() == TokenSpec.Transfer(old(Snapshot()), auth, asset, from, to, amount).value
    {
      if from !in auth || amount <= 0 || asset in failing { return false; }
      ok := MoveBalance(asset, from, to, amount);
    }

    /** The allowance is written before the balances move: a later failure leaves it to the host to undo. */
    method TransferFrom(auth: set<Address>, asset: Address, spender: Address, from: Address, to: Address, amount: I128)
      returns (ok: bool)
      modifies this
      ensures ok == TokenSpec.TransferFrom(old(Snapshot()), auth, asset, spender, from, to, amount).Some?
      ensures ok ==> Snapshot() == TokenSpec.TransferFrom(old(Snapshot()), auth, asset, spender, from, to, amount).value
    {
      if spender !in auth || amount <= 0 || asset in failing { return false; }
      var current := AllowanceOf(asset, from, spender);
      var updated := CheckedI128(current - amount);
      if updated.None? || updated.value < 0 { return false; }
      allowances := allowances[(asset, from, spender) := updated.value];
      ok := MoveBalance(asset, from, to, amount);
    }
  }
}
