/**
 * The registry running over the honest token: conservation of money, and that
 * the bounded allowance a payer approves is always enough.
 */
module World {
  import opened Wrappers
  import opened Limits
  import opened MandateTypes
  import opened RegistrySpec
  import opened RegistryInvariant
  import opened RegistryRuns
  import opened TokenSpec

  /** `self` is the registry contract's own address, the spender of every charge. */
  datatype World = World(reg: Registry, tokens: Tokens, self: Address)

  // ---- the token's replies and effects, now that the token is known ----

  function ChargeReply(w: World, m: Mandate, amount: I128): TokenReply
  {
    TokenReply(Allowance(w.tokens, m.asset, m.payer, w.self), Balance(w.tokens, m.asset, m.payer),
               ChargeTransfer(w, m, amount).Some?)
  }

  /** The contract invokes the token directly, so its own authorization is implied. */
  function ChargeTransfer(w: World, m: Mandate, amount: I128): Option<Tokens>
  {
    TransferFrom(w.tokens, {w.self}, m.asset, w.self, m.payer, m.merchant, amount)
  }

  function RefundReply(w: World, auth: set<Address>, p: PaymentReceipt, amount: I128): TokenReply
  {
    TokenReply(0, Balance(w.tokens, p.asset, p.merchant), RefundTransfer(w, auth, p, amount).Some?)
  }

  function RefundTransfer(w: World, auth: set<Address>, p: PaymentReceipt, amount: I128): Option<Tokens>
  {
    Transfer(w.tokens, auth, p.asset, p.merchant, p.payer, amount)
  }

  const NO_REPLY := TokenReply(0, 0, false)

  function HonestReply(w: World, auth: set<Address>, call: Call): TokenReply
  {
    match call
    case ChargeCall(id, _, amount, _) => if id in w.reg.mandates then ChargeReply(w, w.reg.mandates[id], amount) else NO_REPLY
    case RefundCall(_, p, amount, _) => if p in w.reg.payments then RefundReply(w, auth, w.reg.payments[p], amount) else NO_REPLY
    case _ => NO_REPLY
  }

  function WorldCharge(w: World, now: U64, auth: set<Address>, mandateId: Hash, chargeId: Hash, amount: I128, invoiceHash: Hash)
    : (World, Outcome<PaymentReceipt>)
  {
    var reply := HonestReply(w, auth, ChargeCall(mandateId, chargeId, amount, invoiceHash));
    var (reg, result) := Charge(w.reg, now, auth, reply, mandateId, chargeId, amount, invoiceHash);
    if result.Ok? then (w.(reg := reg, tokens := ChargeTransfer(w, w.reg.mandates[mandateId], amount).value), result)
    else (w, result)
  }

  function WorldRefund(w: World, now: U64, auth: set<Address>, mandateId: Hash, paymentId: Hash, amount: I128, refundId: Hash)
    : (World, Outcome<RefundReceipt>)
  {
    var reply := HonestReply(w, auth, RefundCall(mandateId, paymentId, amount, refundId));
    var (reg, result) := Refund(w.reg, now, auth, reply, mandateId, paymentId, amount, refundId);
    if result.Ok? then (w.(reg := reg, tokens := RefundTransfer(w, auth, w.reg.payments[paymentId], amount).value), result)
    else (w, result)
  }

  // ---- runs ----

  /** Registry calls, and whatever account holders do with their tokens directly. */
  datatype Action =
    | Invoke(now: U64, auth: set<Address>, call: Call)
    | TokenApprove(auth: set<Address>, asset: Address, from: Address, spender: Address, amount: I128)
    | TokenTransfer(auth: set<Address>, asset: Address, from: Address, to: Address, amount: I128)
    | TokenTransferFrom(auth: set<Address>, asset: Address, from: Address, to: Address, spender: Address, amount: I128)
    | TokenMint(asset: Address, to: Address, amount: I128)

  function OrElse(t: Tokens, updated: Option<Tokens>): Tokens
  {
    if updated.Some? then updated.value else t
  }

  function Act(w: World, action: Action): World
  {
    match action
    case Invoke(now, auth, ChargeCall(m, c, amount, invoice)) => WorldCharge(w, now, auth, m, c, amount, invoice).0
    case Invoke(now, auth, RefundCall(m, p, amount, r)) => WorldRefund(w, now, auth, m, p, amount, r).0
    case Invoke(now, auth, call) => w.(reg := Apply(w.reg, Invocation(now, auth, NO_REPLY, call)))
    case TokenApprove(auth, asset, from, spender, amount) =>
      w.(tokens := OrElse(w.tokens, Approve(w.tokens, auth, asset, from, spender, amount)))
    case TokenTransfer(auth, asset, from, to, amount) =>
      w.(tokens := OrElse(w.tokens, Transfer(w.tokens, auth, asset, from, to, amount)))
    case TokenTransferFrom(auth, asset, from, to, spender, amount) =>
      w.(tokens := OrElse(w.tokens, TransferFrom(w.tokens, auth, asset, spender, from, to, amount)))
    case TokenMint(asset, to, amount) =>
      w.(tokens := OrElse(w.tokens, Mint(w.tokens, asset, to, amount)))
  }

  function Acts(w: World, actions: seq<Action>): World
  {
    if actions == [] then w else Act(Acts(w, actions[..|actions| - 1]), actions[|actions| - 1])
  }

  /** The registry's side of an action is one of its own invocations, with the honest replies. */
  function InvocationOf(w: World, action: Action): Option<Invocation>
  {
    match action
    case Invoke(now, auth, call) => Some(Invocation(now, auth, HonestReply(w, auth, call), call))
    case _ => None
  }

  lemma ActIsApply(w: World, action: Action)
    ensures Act(w, action).self == w.self
    ensures match InvocationOf(w, action)
      case Some(inv) => Act(w, action).reg == Apply(w.reg, inv)
      case None => Act(w, action).reg == w.reg
  {
  }

  lemma ActKeeps(w: World, action: Action)
    requires RegistryOk(w.reg)
    ensures RegistryOk(Act(w, action).reg) && Evolves(w.reg, Act(w, action).reg)
    ensures Act(w, action).self == w.self
  {
    hide RegistryOk, Evolves, Act, Apply;
    ActIsApply(w, action);
    match InvocationOf(w, action)
    case Some(inv) =>
      ApplyKeeps(w.reg, inv);
      ApplyEvolves(w.reg, inv);
    case None =>
      EvolvesItself(w.reg);
  }

  lemma {:induction false} ActsKeep(w: World, actions: seq<Action>)
    requires RegistryOk(w.reg)
    ensures RegistryOk(Acts(w, actions).reg) && Evolves(w.reg, Acts(w, actions).reg)
    ensures Acts(w, actions).self == w.self
  {
    hide RegistryOk, Evolves, Act;
    if actions == [] {
      EvolvesItself(w.reg);
    } else {
      var front := actions[..|actions| - 1];
      ActsKeep(w, front);
      ActKeeps(Acts(w, front), actions[|actions| - 1]);
      EvolvesTransitive(w.reg, Acts(w, front).reg, Acts(w, actions).reg);
    }
  }
}
