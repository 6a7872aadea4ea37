/**
 * The honest token: balances and allowances of every asset's contract, keyed by
 * asset. None stands for a trap.
 */
module TokenSpec {
  import opened Wrappers
  import opened Limits
  import opened MandateTypes

  /** (asset, holder) and (asset, owner, spender); an absent entry reads as zero. */
  datatype Tokens = Tokens(
    balances: map<(Address, Address), I128>,
    allowances: map<(Address, Address, Address), I128>,
    failing: set<Address>)

  function Balance(t: Tokens, asset: Address, holder: Address): I128
  {
    if (asset, holder) in t.balances then t.balances[(asset, holder)] else 0
  }

  function Allowance(t: Tokens, asset: Address, owner: Address, spender: Address): I128
  {
    if (asset, owner, spender) in t.allowances then t.allowances[(asset, owner, spender)] else 0
  }

  function Mint(t: Tokens, asset: Address, to: Address, amount: I128): Option<Tokens>
  {
    var updated := CheckedI128(Balance(t, asset, to) + amount);
    if amount <= 0 || updated.None? then None
    else Some(t.(balances := t.balances[(asset, to) := updated.value]))
  }

  function Approve(t: Tokens, auth: set<Address>, asset: Address, from: Address, spender: Address, amount: I128): Option<Tokens>
  {
    if from !in auth then None
    else Some(t.(allowances := t.allowances[(asset, from, spender) := amount]))
  }

  /** Both balances are read before either is written. */
  function MoveBalance(t: Tokens, asset: Address, from: Address, to: Address, amount: int): Option<Tokens>
  {
    var updatedFrom := CheckedI128(Balance(t, asset, from) - amount);
    var updatedTo := CheckedI128(Balance(t, asset, to) + amount);
    if updatedFrom.None? || updatedFrom.value < 0 || updatedTo.None? then None
    else Some(t.(balances := t.balances[(asset, from) := updatedFrom.value][(asset, to) := updatedTo.value]))
  }

  function Transfer(t: Tokens, auth: set<Address>, asset: Address, from: Address, to: Address, amount: I128): Option<Tokens>
  {
    if from !in auth || amount <= 0 || asset in t.failing then None
    else MoveBalance(t, asset, from, to, amount)
  }

  function TransferFrom(t: Tokens, auth: set<Address>, asset: Address, spender: Address, from: Address, to: Address, amount: I128): Option<Tokens>
  {
    if spender !in auth || amount <= 0 || asset in t.failing then None
    else
      var updated := CheckedI128(Allowance(t, asset, from, spender) - amount);
      if updated.None? || updated.value < 0 then None
      else MoveBalance(t.(allowances := t.allowances[(asset, from, spender) := updated.value]), asset, from, to, amount)
  }

  // ---- what each operation does ----

  predicate FitsI128(n: int)
  {
    I128_MIN <= n <= I128_MAX
  }

  ghost predicate SameBalances(t: Tokens, t': Tokens)
  {
    forall b: Address, a: Address :: Balance(t', b, a) == Balance(t, b, a)
  }

  /** Every allowance but one is the old one. */
  ghost predicate OtherAllowances(t: Tokens, t': Tokens, asset: Address, owner: Address, spender: Address)
  {
    forall b: Address, o: Address, s: Address :: (b, o, s) != (asset, owner, spender) ==> Allowance(t', b, o, s) == Allowance(t, b, o, s)
  }

  /** The owner alone approves; the allowance is then the approved amount, whatever it was, and nothing else changes. */
  lemma ApproveExactly(t: Tokens, auth: set<Address>, asset: Address, from: Address, spender: Address, amount: I128)
    ensures var r := Approve(t, auth, asset, from, spender, amount);
      && (r.Some? <==> from in auth)
      && (r.Some? ==>
            && Allowance(r.value, asset, from, spender) == amount
            && SameBalances(t, r.value) && OtherAllowances(t, r.value, asset, from, spender) && r.value.failing == t.failing)
  {
  }

  /** A mint of a positive amount that fits adds it to one balance. */
  lemma MintExactly(t: Tokens, asset: Address, to: Address, amount: I128)
    ensures var r := Mint(t, asset, to, amount);
      && (r.Some? <==> 0 < amount && FitsI128(Balance(t, asset, to) + amount))
      && (r.Some? ==>
            && Balance(r.value, asset, to) == Balance(t, asset, to) + amount
            && (forall b: Address, a: Address :: (b, a) != (asset, to) ==> Balance(r.value, b, a) == Balance(t, b, a))
            && r.value.allowances == t.allowances && r.value.failing == t.failing)
  {
  }

  /** Two different accounts: the sender signs, the amount is positive, covered, and fits the receiver. */
  lemma TransferExactly(t: Tokens, auth: set<Address>, asset: Address, from: Address, to: Address, amount: I128)
    requires from != to
    ensures var r := Transfer(t, auth, asset, from, to, amount);
      && (r.Some? <==>
            && from in auth && 0 < amount && asset !in t.failing
            && amount <= Balance(t, asset, from) && FitsI128(Balance(t, asset, to) + amount))
      && (r.Some? ==> Moved(t, r.value, asset, from, to, amount) && r.value.allowances == t.allowances && r.value.failing == t.failing)
  {
  }

  /** The spender signs and its allowance covers the amount and goes down by it. */
  lemma TransferFromExactly(t: Tokens, auth: set<Address>, asset: Address, spender: Address, from: Address, to: Address, amount: I128)
    requires from != to
    ensures var r := TransferFrom(t, auth, asset, spender, from, to, amount);
      && (r.Some? <==>
            && spender in auth && 0 < amount && asset !in t.failing
            && amount <= Allowance(t, asset, from, spender)
            && amount <= Balance(t, asset, from) && FitsI128(Balance(t, asset, to) + amount))
      && (r.Some? ==>
            && Moved(t, r.value, asset, from, to, amount) && r.value.failing == t.failing
            && Allowance(r.value, asset, from, spender) == Allowance(t, asset, from, spender) - amount
            && OtherAllowances(t, r.value, asset, from, spender))
  {
  }

  // ---- supply ----

  function Holders(t: Tokens, asset: Address): set<Address>
  {
    set k | k in t.balances && k.0 == asset :: k.1
  }

  /** The balances of a set of accounts, added up. */
  ghost function SumOver(t: Tokens, asset: Address, accounts: set<Address>): int
  {
    if accounts == {} then 0
    else var a :| a in accounts; Balance(t, asset, a) + SumOver(t, asset, accounts - {a})
  }

  ghost function Supply(t: Tokens, asset: Address): int
  {
    SumOver(t, asset, Holders(t, asset))
  }

  /** The order in which accounts are added does not matter. */
  lemma {:induction false} SumPick(t: Tokens, asset: Address, accounts: set<Address>, a: Address)
    requires a in accounts
    ensures SumOver(t, asset, accounts) == Balance(t, asset, a) + SumOver(t, asset, accounts - {a})
    decreases |accounts|
  {
    var b :| b in accounts && SumOver(t, asset, accounts) == Balance(t, asset, b) + SumOver(t, asset, accounts - {b});
    if a != b {
      SumPick(t, asset, accounts - {b}, a);
      SumPick(t, asset, accounts - {a}, b);
      assert accounts - {a} - {b} == accounts - {b} - {a};
    }
  }

  lemma {:induction false} SumUnchanged(t: Tokens, t': Tokens, asset: Address, accounts: set<Address>)
    requires forall a :: a in accounts ==> Balance(t, asset, a) == Balance(t', asset, a)
    ensures SumOver(t, asset, accounts) == SumOver(t', asset, accounts)
    decreases |accounts|
  {
    if accounts != {} {
      var a :| a in accounts;
      SumPick(t, asset, accounts, a);
      SumPick(t', asset, accounts, a);
      SumUnchanged(t, t', asset, accounts - {a});
    }
  }

  /** Accounts that hold nothing add nothing. */
  lemma {:induction false} SumBeyondHolders(t: Tokens, asset: Address, accounts: set<Address>)
    requires Holders(t, asset) <= accounts
    ensures SumOver(t, asset, accounts) == Supply(t, asset)
    decreases |accounts - Holders(t, asset)|
  {
    if accounts != Holders(t, asset) {
      assert exists a :: a in accounts && a !in Holders(t, asset);
      var a :| a in accounts && a !in Holders(t, asset);
      SumPick(t, asset, accounts, a);
      assert Balance(t, asset, a) == 0;
      SumBeyondHolders(t, asset, accounts - {a});
    }
  }

  /** What a transfer between two different accounts does to every balance. */
  ghost predicate Moved(t: Tokens, t': Tokens, asset: Address, from: Address, to: Address, amount: int)
  {
    && Balance(t', asset, from) == Balance(t, asset, from) - amount
    && Balance(t', asset, to) == Balance(t, asset, to) + amount
    && (forall b: Address, a: Address :: (b, a) != (asset, from) && (b, a) != (asset, to) ==> Balance(t', b, a) == Balance(t, b, a))
  }

  lemma MoveConservesSupply(t: Tokens, t': Tokens, asset: Address, from: Address, to: Address, amount: int, b: Address)
    requires from != to && Moved(t, t', asset, from, to, amount)
    ensures Supply(t', b) == Supply(t, b)
  {
    var all := Holders(t, b) + Holders(t', b) + {from, to};
    SumBeyondHolders(t, b, all);
    SumBeyondHolders(t', b, all);
    if b == asset {
      var rest := all - {from} - {to};
      SumPick(t, b, all, from);
      SumPick(t, b, all - {from}, to);
      SumPick(t', b, all, from);
      SumPick(t', b, all - {from}, to);
      SumUnchanged(t, t', b, rest);
    } else {
      SumUnchanged(t, t', b, all);
    }
  }

  lemma TransferFromMoves(t: Tokens, auth: set<Address>, asset: Address, spender: Address, from: Address, to: Address, amount: I128)
    requires from != to && TransferFrom(t, auth, asset, spender, from, to, amount).Some?
    ensures Moved(t, TransferFrom(t, auth, asset, spender, from, to, amount).value, asset, from, to, amount)
  {
  }

  lemma TransferMoves(t: Tokens, auth: set<Address>, asset: Address, from: Address, to: Address, amount: I128)
    requires from != to && Transfer(t, auth, asset, from, to, amount).Some?
    ensures Moved(t, Transfer(t, auth, asset, from, to, amount).value, asset, from, to, amount)
  {
  }

  /** Why conservation needs the parties to differ: both balances are read before either is written. */
  lemma SelfTransferIsNotConserved(t: Tokens, auth: set<Address>, asset: Address, who: Address, amount: I128)
    requires Transfer(t, auth, asset, who, who, amount).Some?
    ensures Balance(Transfer(t, auth, asset, who, who, amount).value, asset, who) == Balance(t, asset, who) + amount > Balance(t, asset, who)
  {
  }
}
