/**
 * The exposure the checkout shows is not only a bound: mandates without a
 * minimum interval collect all of it, by charging each period full.
 */
module ExposureAttained {
  import opened Wrappers
  import opened Limits
  import opened MandateTypes
  import opened RegistrySpec
  import opened RegistryInvariant
  import opened RegistryRuns
  import opened RegistryTheorems
  import opened ChargeHistory
  import opened Periods
  import opened Exposure
  import opened MandateTerms
  import L = RegistryLifecycle

  ghost predicate Reached(reg: Registry)
  {
    exists invs :: Run(EMPTY, invs) == reg
  }

  lemma ReachNext(reg: Registry, inv: Invocation)
    requires Reached(reg)
    ensures Reached(Apply(reg, inv))
  {
    var invs :| Run(EMPTY, invs) == reg;
    assert (invs + [inv])[..|invs|] == invs;
    assert Run(EMPTY, invs + [inv]) == Apply(reg, inv);
  }

  // ---- how a period is filled ----

  /** What the first i charges of a period collect: full ones, and a rest that fills the cap. */
  function Filled(cap: int, max: int, i: nat): int
  {
    if i * cap < max then i * cap else max
  }

  /** Charge number i of a period. */
  function Part(cap: int, max: int, i: nat): int
  {
    Filled(cap, max, i + 1) - Filled(cap, max, i)
  }

  /** c charges a period, all positive, all but the last full, and of a fixed rule the last one too. */
  predicate Parts(input: MandateInput, c: nat)
  {
    var cap := PerCharge(input.amountRule);
    && 0 < c && (c - 1) * cap < input.maxPerPeriod
    && (input.amountRule.Fixed? ==> c * cap <= input.maxPerPeriod)
  }

  lemma PartFits(input: MandateInput, c: nat, i: nat)
    requires Parts(input, c) && L.ValidInput(input, 0) && i < c
    ensures var cap := PerCharge(input.amountRule); var part := Part(cap, input.maxPerPeriod, i);
      && 0 < part <= cap && (input.amountRule.Fixed? ==> part == cap)
      && 0 <= Filled(cap, input.maxPerPeriod, i) < Filled(cap, input.maxPerPeriod, i + 1) <= input.maxPerPeriod
  {
    var cap := PerCharge(input.amountRule);
    assert i * cap <= (c - 1) * cap by { TimesOrder(i, c - 1, cap); }
    assert (i + 1) * cap == i * cap + cap;
    assert 0 <= i * cap by { TimesOrder(0, i, cap); }
    if input.amountRule.Fixed? { TimesOrder(i + 1, c, cap); }
  }

  lemma TimesOrder(a: int, b: int, p: int)
    requires a <= b && 0 <= p
    ensures a * p <= b * p
  {
  }

  // ---- where charge j falls ----

  /** What the first j charges collect in all. */
  function Total(cap: int, max: int, c: nat, j: nat): int
    requires 0 < c
  {
    j / c * Filled(cap, max, c) + Filled(cap, max, j % c)
  }

  lemma NextIndex(c: nat, j: nat)
    requires 0 < c
    ensures if j % c + 1 < c then (j + 1) / c == j / c && (j + 1) % c == j % c + 1
            else (j + 1) / c == j / c + 1 && (j + 1) % c == 0
  {
    assert j == j / c * c + j % c;
    if j % c + 1 < c {
      DivIs(j + 1, c, j / c, j % c + 1);
    } else {
      assert (j / c + 1) * c == j / c * c + c;
      DivIs(j + 1, c, j / c + 1, 0);
    }
  }

  lemma DivIs(a: nat, c: nat, q: nat, r: nat)
    requires 0 < c && r < c && a == q * c + r
    ensures a / c == q && a % c == r
  {
    assert a == a / c * c + a % c;
    assert (a / c + 1) * c == a / c * c + c && (q + 1) * c == q * c + c;
    if a / c < q { TimesOrder(a / c + 1, q, c); }
    if q < a / c { TimesOrder(q + 1, a / c, c); }
  }

  lemma TotalNext(cap: int, max: int, c: nat, j: nat)
    requires 0 < c && 0 <= max
    ensures Total(cap, max, c, j + 1) == Total(cap, max, c, j) + Part(cap, max, j % c)
  {
    NextIndex(c, j);
    assert Filled(cap, max, 0) == 0 by { assert 0 * cap == 0; }
    if j % c + 1 >= c {
      assert j % c + 1 == c;
      assert (j / c + 1) * Filled(cap, max, c) == j / c * Filled(cap, max, c) + Filled(cap, max, c);
    }
  }

  // ---- the run ----

  function IdOf(input: MandateInput): Hash
  {
    MandateHash(input.payer, input.merchant, input.asset, input.clientNonce)
  }

  /** When charge j is made: at the start of its period. */
  function ChargedAt(input: MandateInput, c: nat, j: nat): int
    requires 0 < c
  {
    Boundary(input.startAt, input.periodSeconds, j / c)
  }

  /** The record after j charges. */
  ghost predicate RecordAfter(m: Mandate, input: MandateInput, c: nat, j: nat)
    requires 0 < c
  {
    var cap, max := PerCharge(input.amountRule), input.maxPerPeriod;
    && m.amountRule == input.amountRule && m.maxPerPeriod == max && m.periodSeconds == input.periodSeconds
    && m.startAt == input.startAt && m.expiresAt == input.expiresAt && m.maxSuccessfulCharges == input.maxSuccessfulCharges
    && m.minIntervalSeconds == 0 && m.merchant == input.merchant
    && m.successfulCharges == j && m.totalCollected == Total(cap, max, c, j)
    && (input.maxSuccessfulCharges == 0 || j < input.maxSuccessfulCharges ==> m.status == Active)
    && (if j == 0 then m.lastChargedAt == None && m.currentPeriodStart == input.startAt && m.currentPeriodCollected == 0
        else m.lastChargedAt == Some(ChargedAt(input, c, j - 1)) && m.currentPeriodStart == ChargedAt(input, c, j - 1)
             && m.currentPeriodCollected == Filled(cap, max, (j - 1) % c + 1))
  }

  /** After j charges, under charge ids 0 to j - 1. */
  ghost predicate After(reg: Registry, input: MandateInput, c: nat, j: nat)
    requires 0 < c
  {
    && Reached(reg) && RegistryOk(reg) && IdOf(input) in reg.mandates && RecordAfter(reg.mandates[IdOf(input)], input, c, j)
    && |reg.charged| == j && forall i :: 0 <= i < j ==> reg.charged[i].chargeId == Raw(i)
  }

  /** What the run needs of the input: valid, no minimum interval, and periods that can be filled so. */
  ghost predicate Fillable(input: MandateInput, c: nat)
  {
    L.ValidInput(input, 0) && input.minIntervalSeconds == 0 && Parts(input, c)
  }

  lemma Begin(input: MandateInput, c: nat) returns (reg: Registry)
    requires Fillable(input, c)
    ensures After(reg, input, c, 0)
  {
    assert Run(EMPTY, []) == EMPTY;
    EmptyOk();
    var inv := Invocation(0, {input.payer}, TokenReply(0, 0, false), CreateCall(input));
    ReachNext(EMPTY, inv);
    ApplyKeeps(EMPTY, inv);
    L.CreateAnswers(EMPTY, 0, {input.payer}, input);
    reg := Apply(EMPTY, inv);
    assert reg == Create(EMPTY, 0, {input.payer}, input).0;
    assert Total(PerCharge(input.amountRule), input.maxPerPeriod, c, 0) == 0 by { ZeroTotal(PerCharge(input.amountRule), input.maxPerPeriod, c); }
    hide Create, RegistryOk, Run, Apply, Total, Filled;
  }

  lemma ZeroTotal(cap: int, max: int, c: nat)
    requires 0 < c && 0 < max
    ensures Total(cap, max, c, 0) == 0
  {
    assert 0 / c == 0 && 0 % c == 0 && 0 * cap == 0;
    assert 0 * Filled(cap, max, c) == 0;
  }

  /** The next charge falls in the same period as the last, or begins the next. */
  lemma PeriodOfNext(input: MandateInput, c: nat, j: nat)
    requires 0 < c && 0 < j && 0 < input.periodSeconds
    ensures if j % c == 0 then ChargedAt(input, c, j) == ChargedAt(input, c, j - 1) + input.periodSeconds
            else ChargedAt(input, c, j) == ChargedAt(input, c, j - 1) && j % c == (j - 1) % c + 1
    ensures input.startAt <= ChargedAt(input, c, j - 1) <= ChargedAt(input, c, j)
  {
    NextIndex(c, j - 1);
    BoundaryOrder(input.startAt, input.periodSeconds, 0, (j - 1) / c);
  }

  /** A boundary is the start of its own period. */
  lemma BoundaryIsStart(start: int, p: nat, k: nat)
    requires 0 < p
    ensures start <= Boundary(start, p, k) && PeriodStart(start, p, Boundary(start, p, k)) == Boundary(start, p, k)
  {
    BoundaryOrder(start, p, 0, k);
    InPeriod(start, p, Boundary(start, p, k), k);
  }

  /** Charge j is not before the last one. */
  lemma LastBefore(m: Mandate, input: MandateInput, c: nat, j: nat)
    requires 0 < c && 0 < input.periodSeconds && 0 < input.maxPerPeriod && RecordAfter(m, input, c, j)
    ensures var now := ChargedAt(input, c, j);
      && m.startAt <= now && (m.lastChargedAt.Some? ==> m.lastChargedAt.value <= now)
      && PeriodStart(input.startAt, input.periodSeconds, now) == now
      && (if m.currentPeriodStart == now then m.currentPeriodCollected else 0)
         == Filled(PerCharge(input.amountRule), input.maxPerPeriod, j % c)
  {
    BoundaryIsStart(input.startAt, input.periodSeconds, j / c);
    FilledNone(PerCharge(input.amountRule), input.maxPerPeriod);
    hide Filled, Total, PeriodStart, Boundary;
    if j > 0 {
      PeriodOfNext(input, c, j);
    } else {
      FirstIndex(c);
      FirstBoundary(input.startAt, input.periodSeconds);
    }
  }

  lemma FilledNone(cap: int, max: int)
    ensures 0 < max ==> Filled(cap, max, 0) == 0
    ensures max <= 0 ==> Filled(cap, max, 0) == max
  {
    assert 0 * cap == 0;
  }

  lemma FirstIndex(c: nat)
    requires 0 < c
    ensures 0 / c == 0 && 0 % c == 0
  {
  }

  lemma FirstBoundary(start: int, p: nat)
    ensures Boundary(start, p, 0) == start
  {
  }

  /** What the period of charge j holds before it. */
  lemma PeriodBefore(m: Mandate, log: seq<PaymentReceipt>, input: MandateInput, c: nat, j: nat)
    requires Fillable(input, c) && MandateOk(m, log) && RecordAfter(m, input, c, j) && ChargedAt(input, c, j) < input.expiresAt
    ensures var now := ChargedAt(input, c, j);
      && m.startAt <= now && (m.lastChargedAt.Some? ==> m.lastChargedAt.value <= now)
      && PeriodStart(m.startAt, m.periodSeconds, now) == now
      && Collected(log, m.id, now, now + m.periodSeconds) == Filled(PerCharge(input.amountRule), input.maxPerPeriod, j % c)
  {
    assert 0 < input.periodSeconds && 0 < input.maxPerPeriod;
    assert m.startAt == input.startAt && m.periodSeconds == input.periodSeconds && m.expiresAt == input.expiresAt;
    var now := ChargedAt(input, c, j);
    hide MandateOk, ChargedAt, Filled, PeriodStart, Fillable;
    LastBefore(m, input, c, j);
    hide RecordAfter;
    PeriodAt(m, log, now);
  }

  /** A token that pays. */
  const PAYS := TokenReply(I128_MAX, I128_MAX, true)

  /** The plan of a charge: its period's start, and what the period holds with it. */
  predicate PlannedAs(r: Outcome<Plan>, start: int, collected: int)
  {
    r.Ok? && r.value.periodStart == start && r.value.periodCollected == collected
  }

  /** The timing steps accept charge j. */
  lemma TimingPasses(m: Mandate, log: seq<PaymentReceipt>, input: MandateInput, c: nat, j: nat)
    requires Fillable(input, c) && MandateOk(m, log) && RecordAfter(m, input, c, j) && ChargedAt(input, c, j) < input.expiresAt
    requires input.maxSuccessfulCharges != 0 ==> j < input.maxSuccessfulCharges
    ensures var now, part := ChargedAt(input, c, j), Part(PerCharge(input.amountRule), input.maxPerPeriod, j % c);
      && 0 <= now <= U64_MAX && 0 < part <= I128_MAX && m.startAt <= now
      && Admits(m, log, now, part)
      && PlannedAs(TimingPlan(m, now, part), now, Filled(PerCharge(input.amountRule), input.maxPerPeriod, j % c + 1))
  {
    var now, part := ChargedAt(input, c, j), Part(PerCharge(input.amountRule), input.maxPerPeriod, j % c);
    FillableMeans(input, c);
    IndexBelow(j, c);
    hide *;
    TermsAfter(m, input, c, j);
    PartFits(input, c, j % c);
    PartAddsUp(PerCharge(input.amountRule), input.maxPerPeriod, j % c);
    PeriodBefore(m, log, input, c, j);
    PlansIt(m, log, now, part);
  }

  lemma IndexBelow(j: nat, c: nat)
    requires 0 < c
    ensures 0 <= j % c < c
  {
  }

  lemma PartAddsUp(cap: int, max: int, i: nat)
    ensures Filled(cap, max, i) + Part(cap, max, i) == Filled(cap, max, i + 1)
  {
  }

  lemma FillableMeans(input: MandateInput, c: nat)
    requires Fillable(input, c)
    ensures Parts(input, c) && L.ValidInput(input, 0) && 0 < c && 0 < input.maxPerPeriod && 0 < input.periodSeconds
    ensures 0 < PerCharge(input.amountRule) && input.startAt < input.expiresAt && input.payer != input.merchant
  {
  }

  /** The timing steps, for a charge at a boundary that its period has room for. */
  lemma PlansIt(m: Mandate, log: seq<PaymentReceipt>, now: U64, amount: I128)
    requires MandateOk(m, log) && m.startAt <= now && 0 < amount && 0 < m.periodSeconds && m.status == Active
    requires m.minIntervalSeconds == 0 && (m.lastChargedAt.Some? ==> m.lastChargedAt.value <= now)
    requires PeriodStart(m.startAt, m.periodSeconds, now) == now
    requires Collected(log, m.id, now, now + m.periodSeconds) + amount <= m.maxPerPeriod
    requires m.maxSuccessfulCharges != 0 ==> m.successfulCharges < m.maxSuccessfulCharges
    ensures Admits(m, log, now, amount)
    ensures PlannedAs(TimingPlan(m, now, amount), now, Collected(log, m.id, now, now + m.periodSeconds) + amount)
  {
    hide MandateOk, TimingPlan, PeriodStart, Collected;
    TimingPlanMeaning(m, log, now, amount);
  }

  lemma TermsAfter(m: Mandate, input: MandateInput, c: nat, j: nat)
    requires 0 < c && RecordAfter(m, input, c, j) && (input.maxSuccessfulCharges != 0 ==> j < input.maxSuccessfulCharges)
    ensures m.amountRule == input.amountRule && m.maxPerPeriod == input.maxPerPeriod && m.periodSeconds == input.periodSeconds
    ensures m.startAt == input.startAt && m.expiresAt == input.expiresAt && m.maxSuccessfulCharges == input.maxSuccessfulCharges
    ensures m.minIntervalSeconds == 0 && m.merchant == input.merchant && m.status == Active && m.successfulCharges == j
    ensures m.totalCollected == Total(PerCharge(input.amountRule), input.maxPerPeriod, c, j)
  {
    hide Total, Filled, ChargedAt;
  }

  /** The amount fits the rule. */
  lemma RuleAllows(input: MandateInput, c: nat, i: nat)
    requires Parts(input, c) && L.ValidInput(input, 0) && i < c
    ensures RuleAdmits(input.amountRule, Part(PerCharge(input.amountRule), input.maxPerPeriod, i))
  {
    PartFits(input, c, i);
    hide Part, Filled;
  }

  /** Charge j goes through. */
  lemma NextPasses(reg: Registry, input: MandateInput, c: nat, j: nat)
    requires Fillable(input, c) && After(reg, input, c, j) && ChargedAt(input, c, j) < input.expiresAt
    requires j < U32_MAX && (input.maxSuccessfulCharges != 0 ==> j < input.maxSuccessfulCharges)
    requires Total(PerCharge(input.amountRule), input.maxPerPeriod, c, j + 1) <= I128_MAX
    ensures var now, part := ChargedAt(input, c, j), Part(PerCharge(input.amountRule), input.maxPerPeriod, j % c);
      && 0 <= now <= U64_MAX && 0 < part <= I128_MAX
      && PlannedAs(ChargePlan(reg, now, {input.merchant}, IdOf(input), Raw(j), part), now,
                   Filled(PerCharge(input.amountRule), input.maxPerPeriod, j % c + 1))
      && Charge(reg, now, {input.merchant}, PAYS, IdOf(input), Raw(j), part, Raw(0)).1.Ok?
  {
    var m, id := reg.mandates[IdOf(input)], IdOf(input);
    var cap, max := PerCharge(input.amountRule), input.maxPerPeriod;
    var now, part := ChargedAt(input, c, j), Part(cap, max, j % c);
    assert Unseen(reg.charged, id, Raw(j));
    FillableMeans(input, c);
    IndexBelow(j, c);
    assert RegistryOk(reg) && RecordAfter(m, input, c, j);
    hide *;
    MandateHas(reg, id);
    TermsAfter(m, input, c, j);
    TimingPasses(m, reg.charged, input, c, j);
    RuleAllows(input, c, j % c);
    TotalNext(cap, max, c, j);
    TotalNonNegative(cap, max, c, j);
    MeetsThem(m, reg.charged, now, {input.merchant}, Raw(j), part);
    ChargePlanMeaning(reg, now, {input.merchant}, id, Raw(j), part);
    PlanIsTiming(reg, now, {input.merchant}, id, Raw(j), part);
    PaysThrough(reg, now, {input.merchant}, id, Raw(j), part, Raw(0));
  }

  lemma MeetsThem(m: Mandate, log: seq<PaymentReceipt>, now: U64, auth: set<Address>, chargeId: Hash, amount: I128)
    requires 0 < m.periodSeconds && m.status == Active && m.startAt <= now < m.expiresAt && m.merchant in auth
    requires Unseen(log, m.id, chargeId) && 0 < amount && RuleAdmits(m.amountRule, amount) && Admits(m, log, now, amount)
    ensures MeetsEveryRule(m, log, now, auth, chargeId, amount)
  {
    hide Unseen, Admits;
  }

  lemma TotalNonNegative(cap: int, max: int, c: nat, j: nat)
    requires 0 < c && 0 <= max && 0 <= cap
    ensures 0 <= Total(cap, max, c, j)
  {
    TimesOrder(0, c, cap);
    TimesOrder(0, j % c, cap);
    TimesOrder(0, j / c, Filled(cap, max, c));
  }

  lemma MandateHas(reg: Registry, id: Hash)
    requires RegistryOk(reg) && id in reg.mandates
    ensures reg.mandates[id].id == id && MandateOk(reg.mandates[id], reg.charged)
  {
    hide MandateOk;
  }

  lemma PlanIsTiming(reg: Registry, now: U64, auth: set<Address>, id: Hash, chargeId: Hash, amount: I128)
    requires ChargePlan(reg, now, auth, id, chargeId, amount).Ok?
    ensures id in reg.mandates && reg.mandates[id].startAt <= now
    ensures ChargePlan(reg, now, auth, id, chargeId, amount) == TimingPlan(reg.mandates[id], now, amount)
  {
    hide TimingPlan;
  }

  lemma PaysThrough(reg: Registry, now: U64, auth: set<Address>, id: Hash, chargeId: Hash, amount: I128, invoiceHash: Hash)
    requires ChargePlan(reg, now, auth, id, chargeId, amount).Ok? && id in reg.mandates && 0 < amount
    requires reg.mandates[id].successfulCharges < U32_MAX && I128_MIN <= reg.mandates[id].totalCollected + amount <= I128_MAX
    ensures Charge(reg, now, auth, PAYS, id, chargeId, amount, invoiceHash).1.Ok?
  {
    hide ChargePlan, TimingPlan, RecordCharge;
  }

  /** The record charge j writes. */
  lemma RecordNext(m: Mandate, m': Mandate, input: MandateInput, c: nat, j: nat, now: U64, part: I128, plan: Plan)
    requires 0 < c && RecordAfter(m, input, c, j) && m.status == Active && AfterCharge(m, now, part, plan) == Some(m')
    requires now == ChargedAt(input, c, j) && plan.periodStart == now
    requires plan.periodCollected == Filled(PerCharge(input.amountRule), input.maxPerPeriod, j % c + 1)
    requires Total(PerCharge(input.amountRule), input.maxPerPeriod, c, j + 1) == Total(PerCharge(input.amountRule), input.maxPerPeriod, c, j) + part
    ensures RecordAfter(m', input, c, j + 1)
  {
    hide Total, Filled, ChargedAt;
  }

  lemma NextCharge(reg: Registry, input: MandateInput, c: nat, j: nat) returns (reg': Registry)
    requires Fillable(input, c) && After(reg, input, c, j) && ChargedAt(input, c, j) < input.expiresAt
    requires j < U32_MAX && (input.maxSuccessfulCharges != 0 ==> j < input.maxSuccessfulCharges)
    requires Total(PerCharge(input.amountRule), input.maxPerPeriod, c, j + 1) <= I128_MAX
    ensures After(reg', input, c, j + 1)
  {
    FillableMeans(input, c);
    var id, cap, max := IdOf(input), PerCharge(input.amountRule), input.maxPerPeriod;
    assert RegistryOk(reg) && Reached(reg) && id in reg.mandates && RecordAfter(reg.mandates[id], input, c, j);
    hide *;
    NextPasses(reg, input, c, j);
    var now: U64, part: I128 := ChargedAt(input, c, j), Part(cap, max, j % c);
    var m, plan := reg.mandates[id], ChargePlan(reg, now, {input.merchant}, id, Raw(j), part);
    IsPlanned(plan, now, Filled(cap, max, j % c + 1));
    reg' := Charge(reg, now, {input.merchant}, PAYS, id, Raw(j), part, Raw(0)).0;
    ChargeReached(reg, now, {input.merchant}, id, Raw(j), part);
    ChargeKeepsRegistry(reg, now, {input.merchant}, PAYS, id, Raw(j), part, Raw(0));
    ChargeRecords(reg, now, {input.merchant}, PAYS, id, Raw(j), part, Raw(0));
    PlanIsTiming(reg, now, {input.merchant}, id, Raw(j), part);
    TotalNext(cap, max, c, j);
    TermsAfter(m, input, c, j);
    MandateHas(reg, id);
    var m' := AfterCharge(m, now, part, plan.value).value;
    RecordNext(m, m', input, c, j, now, part, plan.value);
    SameId(m, now, part, plan.value);
    AfterRecorded(reg, m', Charge(reg, now, {input.merchant}, PAYS, id, Raw(j), part, Raw(0)).1.value, input, c, j);
  }

  lemma IsPlanned(r: Outcome<Plan>, start: int, collected: int)
    requires PlannedAs(r, start, collected)
    ensures r.Ok? && r.value.periodStart == start && r.value.periodCollected == collected
  {
  }

  lemma AfterRecorded(reg: Registry, m: Mandate, r: PaymentReceipt, input: MandateInput, c: nat, j: nat)
    requires 0 < c && After(reg, input, c, j) && RecordAfter(m, input, c, j + 1) && m.id == IdOf(input) && r.chargeId == Raw(j)
    requires Reached(RecordCharge(reg, m, r)) && RegistryOk(RecordCharge(reg, m, r))
    ensures After(RecordCharge(reg, m, r), input, c, j + 1)
  {
    hide Reached, RegistryOk, RecordAfter;
  }

  lemma SameId(m: Mandate, now: U64, amount: I128, plan: Plan)
    requires AfterCharge(m, now, amount, plan).Some?
    ensures AfterCharge(m, now, amount, plan).value.id == m.id
  {
  }

  lemma ChargeReached(reg: Registry, now: U64, auth: set<Address>, id: Hash, chargeId: Hash, amount: I128)
    requires Reached(reg)
    ensures Reached(Charge(reg, now, auth, PAYS, id, chargeId, amount, Raw(0)).0)
  {
    ReachNext(reg, Invocation(now, auth, PAYS, ChargeCall(id, chargeId, amount, Raw(0))));
    hide Charge, Reached;
  }

  /** Charges before the last are before the expiry, and their total is smaller. */
  lemma {:induction false} TotalOrder(cap: int, max: int, c: nat, i: nat, j: nat)
    requires 0 < c && 0 <= max && 0 <= cap && i <= j
    ensures Total(cap, max, c, i) <= Total(cap, max, c, j)
    decreases j
  {
    if i < j {
      TotalOrder(cap, max, c, i, j - 1);
      TotalNext(cap, max, c, j - 1);
      TimesOrder((j - 1) % c, (j - 1) % c + 1, cap);
      hide Total;
    }
  }

  /** The first j charges are all made before the expiry. */
  ghost predicate InTime(input: MandateInput, c: nat, j: nat)
    requires 0 < c
  {
    forall i: nat :: i < j ==> ChargedAt(input, c, i) < input.expiresAt
  }

  /** Any number of charges that fits the life, the count and the widths can be made. */
  lemma {:induction false} Collects(input: MandateInput, c: nat, j: nat) returns (reg: Registry)
    requires Fillable(input, c) && InTime(input, c, j)
    requires j <= U32_MAX && (input.maxSuccessfulCharges != 0 ==> j <= input.maxSuccessfulCharges)
    requires Total(PerCharge(input.amountRule), input.maxPerPeriod, c, j) <= I128_MAX
    ensures After(reg, input, c, j)
    decreases j
  {
    hide *;
    if j == 0 {
      reg := Begin(input, c);
    } else {
      Shorter(input, c, j);
      var before := Collects(input, c, j - 1);
      reg := NextCharge(before, input, c, j - 1);
    }
  }

  lemma Shorter(input: MandateInput, c: nat, j: nat)
    requires Fillable(input, c) && 0 < j && InTime(input, c, j) && Total(PerCharge(input.amountRule), input.maxPerPeriod, c, j) <= I128_MAX
    ensures InTime(input, c, j - 1) && ChargedAt(input, c, j - 1) < input.expiresAt
    ensures Total(PerCharge(input.amountRule), input.maxPerPeriod, c, j - 1) <= I128_MAX
  {
    FillableMeans(input, c);
    hide Fillable, Total, ChargedAt, PerCharge;
    TotalOrder(PerCharge(input.amountRule), input.maxPerPeriod, c, j - 1, j);
  }

  lemma AllInTime(input: MandateInput, c: nat, j: nat, n: nat)
    requires 0 < c && j <= n * c && Boundary(input.startAt, input.periodSeconds, n) < input.expiresAt + input.periodSeconds
    ensures InTime(input, c, j)
  {
    forall i: nat | i < j ensures ChargedAt(input, c, i) < input.expiresAt { InLife(input, c, i, n); }
  }

  /** Charge j of at most n full periods is made before the expiry. */
  lemma InLife(input: MandateInput, c: nat, j: nat, n: nat)
    requires 0 < c && j < n * c && Boundary(input.startAt, input.periodSeconds, n) < input.expiresAt + input.periodSeconds
    ensures ChargedAt(input, c, j) < input.expiresAt
  {
    var k := j / c;
    assert j == k * c + j % c;
    if n <= k { TimesOrder(n, k, c); }
    BoundaryOrder(input.startAt, input.periodSeconds, k + 1, n);
    assert Boundary(input.startAt, input.periodSeconds, k + 1) == Boundary(input.startAt, input.periodSeconds, k) + input.periodSeconds;
  }

  // ---- the exposure is attained ----

  /** A run ends with the mandate having collected exactly its exposure. */
  ghost predicate Attained(input: MandateInput)
  {
    exists invs :: var reg := Run(EMPTY, invs);
      && IdOf(input) in reg.mandates && reg.mandates[IdOf(input)].periodSeconds > 0
      && reg.mandates[IdOf(input)].totalCollected == MaxExposure(reg.mandates[IdOf(input)])
  }

  function TermsOfInput(input: MandateInput): ExposureTerms
  {
    ExposureTerms(input.amountRule, input.maxPerPeriod, input.periodSeconds, input.maxSuccessfulCharges, input.startAt, input.expiresAt)
  }

  lemma AttainedBy(reg: Registry, input: MandateInput, c: nat, j: nat)
    requires Fillable(input, c) && After(reg, input, c, j)
    requires ComputeMaxExposure(TermsOfInput(input)) == Some(Total(PerCharge(input.amountRule), input.maxPerPeriod, c, j))
    ensures Attained(input)
  {
    var invs :| Run(EMPTY, invs) == reg;
    hide Run, Total, RegistryOk, ComputeMaxExposure;
    assert ExposureTermsOf(reg.mandates[IdOf(input)]) == TermsOfInput(input);
    assert Run(EMPTY, invs).mandates[IdOf(input)].totalCollected == MaxExposure(Run(EMPTY, invs).mandates[IdOf(input)]);
  }

  /** The periods counted reach just past the expiry. */
  lemma PeriodsReach(input: MandateInput, n: nat)
    requires L.ValidInput(input, 0) && IsPeriodCount(TermsOfInput(input), n)
    ensures 0 < n && Boundary(input.startAt, input.periodSeconds, n) < input.expiresAt + input.periodSeconds
  {
    var duration, p := input.expiresAt - input.startAt, input.periodSeconds;
    BoundaryIsProduct(input.startAt, p, n);
    PeriodCountIsCeiling(TermsOfInput(input), n);
    CeilDivIsCeiling(duration, p);
    assert (n - 1) * p == n * p - p;
    if n <= 0 { TimesOrder(n, 0, p); }
  }

  lemma FullPeriods(cap: int, max: int, c: nat, n: nat)
    requires 0 < c && 0 < max && 0 < cap
    ensures (n * c) / c == n && (n * c) % c == 0 && Total(cap, max, c, n * c) == n * Filled(cap, max, c)
  {
    DivIs(n * c, c, n, 0);
    FilledNone(cap, max);
  }

  /**
   * Without a count limit: a mandate without a minimum interval collects all of
   * its exposure when its charges can fill a period exactly (a variable rule
   * always can, a fixed amount when it divides the period cap) and the counters
   * are wide enough. c is the number of charges that fill a period, n the number
   * of periods.
   */
  lemma UnlimitedExposureAttained(input: MandateInput, c: nat, n: nat)
    requires L.ValidInput(input, 0) && input.minIntervalSeconds == 0 && input.maxSuccessfulCharges == 0
    requires var cap := PerCharge(input.amountRule);
      && 0 < c && (c - 1) * cap < input.maxPerPeriod <= c * cap && (input.amountRule.Fixed? ==> c * cap == input.maxPerPeriod)
    requires IsPeriodCount(TermsOfInput(input), n) && n * c <= U32_MAX && n * input.maxPerPeriod <= I128_MAX
    ensures Attained(input)
  {
    var cap, max := PerCharge(input.amountRule), input.maxPerPeriod;
    PeriodsReach(input, n);
    FullPeriods(cap, max, c, n);
    assert Filled(cap, max, c) == max;
    ExposureIsSmaller(TermsOfInput(input), n);
    assert max * n == n * max;
    assert Fillable(input, c);
    hide Total, Filled, IsPeriodCount, Fillable, ComputeMaxExposure;
    AllInTime(input, c, n * c, n);
    var reg := Collects(input, c, n * c);
    AttainedBy(reg, input, c, n * c);
  }

  /**
   * With a count limit that the periods have room for, in full charges: a mandate
   * without a minimum interval collects that count of full charges, which is its
   * exposure.
   */
  lemma CountedExposureAttained(input: MandateInput, c: nat, n: nat)
    requires L.ValidInput(input, 0) && input.minIntervalSeconds == 0 && input.maxSuccessfulCharges != 0
    requires var cap := PerCharge(input.amountRule); 0 < c && c * cap <= input.maxPerPeriod < (c + 1) * cap
    requires IsPeriodCount(TermsOfInput(input), n) && input.maxSuccessfulCharges <= n * c
    requires PerCharge(input.amountRule) * input.maxSuccessfulCharges <= I128_MAX
    ensures Attained(input)
  {
    var cap, max, count := PerCharge(input.amountRule), input.maxPerPeriod, input.maxSuccessfulCharges;
    PeriodsReach(input, n);
    FullCharges(cap, max, c, count);
    CountIsSmaller(input, c, n);
    TimesOrder(c - 1, c, cap);
    assert (c - 1) * cap == c * cap - cap;
    assert Fillable(input, c);
    hide Total, Filled, IsPeriodCount, Fillable, ComputeMaxExposure;
    AllInTime(input, c, count, n);
    var reg := Collects(input, c, count);
    AttainedBy(reg, input, c, count);
  }

  /** Full charges only: the total is their number times the cap. */
  lemma FullCharges(cap: int, max: int, c: nat, j: nat)
    requires 0 < c && 0 < cap && c * cap <= max
    ensures Total(cap, max, c, j) == cap * j
  {
    var k, i := j / c, j % c;
    assert j == k * c + i;
    TimesOrder(i, c, cap);
    assert Filled(cap, max, c) == c * cap && Filled(cap, max, i) == i * cap;
    assert k * (c * cap) + i * cap == cap * (k * c + i);
  }

  lemma CountIsSmaller(input: MandateInput, c: nat, n: nat)
    requires L.ValidInput(input, 0) && input.maxSuccessfulCharges != 0
    requires var cap := PerCharge(input.amountRule); 0 < c && c * cap <= input.maxPerPeriod
    requires IsPeriodCount(TermsOfInput(input), n) && input.maxSuccessfulCharges <= n * c
    ensures ComputeMaxExposure(TermsOfInput(input)) == Some(PerCharge(input.amountRule) * input.maxSuccessfulCharges)
  {
    var cap, max, count := PerCharge(input.amountRule), input.maxPerPeriod, input.maxSuccessfulCharges;
    CountBelow(cap, max, count, c, n);
    hide IsPeriodCount, ComputeMaxExposure;
    ExposureIsSmaller(TermsOfInput(input), n);
    var e := ComputeMaxExposure(TermsOfInput(input)).value;
    assert e == max * n || e == cap * count;
  }

  lemma CountBelow(cap: int, max: int, count: int, c: nat, n: nat)
    requires 0 <= cap && 0 <= n && count <= n * c && c * cap <= max
    ensures cap * count <= max * n
  {
    TimesOrder(count, n * c, cap);
    assert (n * c) * cap == n * (c * cap);
    TimesOrderRight(c * cap, max, n);
    assert cap * count == count * cap && max * n == n * max;
  }

  lemma TimesOrderRight(a: int, b: int, n: nat)
    requires a <= b
    ensures n * a <= n * b
  {
  }
}
