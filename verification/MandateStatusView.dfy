/**
 * The dashboard's derivations over a live-read mandate: the effective status,
 * the period usage at an instant, and the next instant a charge could succeed.
 */
module MandateStatusView {
  import opened Wrappers
  import opened Limits
  import opened MandateTypes
  import opened BigInts
  import opened Periods
  import opened ChargeHistory
  import RegistrySpec
  import opened RegistryInvariant
  import opened RegistryRuns
  import opened Precheck

  /** None stands for the thrown error on a divisor that is not positive. */
  function FloorDivBigInt(a: int, b: int): Option<int>
  {
    if b <= 0 then None
    else
      var q := TruncDiv(a, b);
      Some(if TruncMod(a, b) != 0 && a < 0 then q - 1 else q)
  }

  /** It is the floor for every dividend, negative ones included. */
  lemma FloorDivIsFloor(a: int, b: int)
    requires 0 < b
    ensures FloorDivBigInt(a, b).Some?
    ensures var q := FloorDivBigInt(a, b).value; q * b <= a < (q + 1) * b
  {
    var n := if a < 0 then -a else a;
    assert n == n / b * b + n % b;
    var q := FloorDivBigInt(a, b).value;
    if a < 0 {
      assert TruncDiv(a, b) * b == -(n / b * b);
      assert (TruncDiv(a, b) - 1) * b == TruncDiv(a, b) * b - b;
      assert (TruncDiv(a, b) + 1) * b == TruncDiv(a, b) * b + b;
    } else {
      assert (n / b + 1) * b == n / b * b + b;
    }
  }

  function DeriveEffectiveStatus(status: MandateStatus, expiresAt: int, now: int): MandateStatus
  {
    if (status == Active || status == Paused) && now >= expiresAt then Expired else status
  }

  /** The dashboard's status is the contract's, and re-deriving it from a live read changes nothing. */
  lemma StatusMirrorsContract(reg: RegistrySpec.Registry, id: Hash, readAt: int, now: int)
    requires id in reg.mandates && readAt <= now
    ensures var view := RegistrySpec.GetMandate(reg, readAt, id).value;
      DeriveEffectiveStatus(view.status, view.expiresAt, now) == RegistrySpec.GetMandate(reg, now, id).value.status
  {
  }

  datatype PeriodUsage = PeriodUsage(periodStart: int, collected: int, max: int)

  function ComputeEffectivePeriodUsage(m: Mandate, at: int): Option<PeriodUsage>
  {
    var clamped := if at > m.startAt then at else m.startAt;
    var index := FloorDivBigInt(clamped - m.startAt, m.periodSeconds);
    if index.None? then None
    else
      var periodStart := m.startAt + index.value * m.periodSeconds;
      Some(PeriodUsage(periodStart, if periodStart == m.currentPeriodStart then m.currentPeriodCollected else 0, m.maxPerPeriod))
  }

  /** What holds of every mandate read from the chain. */
  ghost predicate ViewOk(m: Mandate)
  {
    TermsOk(m) && ClockOk(m) && 0 <= m.currentPeriodCollected <= m.maxPerPeriod
  }

  lemma RecordIsViewOk(m: Mandate, log: seq<PaymentReceipt>)
    requires MandateOk(m, log)
    ensures ViewOk(m)
  {
    Bounds(log, m.id, m.startAt, Horizon(m), ChargeCap(m.amountRule), m.currentPeriodStart, PeriodEnd(m));
    var t := if m.lastChargedAt.Some? then m.lastChargedAt.value else m.startAt;
    InPeriod(m.startAt, m.periodSeconds, m.startAt, 0);
    var k := Index(m.startAt, m.periodSeconds, t);
    assert Boundary(m.startAt, m.periodSeconds, k) == m.currentPeriodStart;
    assert Boundary(m.startAt, m.periodSeconds, k + 1) == PeriodEnd(m);
  }

  lemma LiveReadIsViewOk(reg: RegistrySpec.Registry, id: Hash, now: int)
    requires RegistryOk(reg) && id in reg.mandates
    ensures ViewOk(RegistrySpec.GetMandate(reg, now, id).value)
  {
    hide MandateOk, ReceiptsStored, RefundsOk;
    RecordIsViewOk(reg.mandates[id], reg.charged);
  }

  /** For an instant after the last charge, the usage is that of the period holding it. */
  lemma UsageAt(m: Mandate, at: int)
    requires ViewOk(m) && m.startAt <= at
    requires m.lastChargedAt.Some? ==> m.lastChargedAt.value <= at
    ensures ComputeEffectivePeriodUsage(m, at).Some?
    ensures var u := ComputeEffectivePeriodUsage(m, at).value;
      && u.max == m.maxPerPeriod
      && u.periodStart == PeriodStart(m.startAt, m.periodSeconds, at)
      && m.currentPeriodStart <= u.periodStart <= at < u.periodStart + m.periodSeconds
      && u.periodStart == m.startAt + TruncDiv(at - m.startAt, m.periodSeconds) * m.periodSeconds
  {
    BoundaryIsProduct(m.startAt, m.periodSeconds, Index(m.startAt, m.periodSeconds, at));
    InOwnPeriod(m.startAt, m.periodSeconds, at);
    assert (at - m.startAt) / m.periodSeconds * m.periodSeconds >= 0;
    if m.lastChargedAt.Some? { PeriodStartOrder(m.startAt, m.periodSeconds, m.lastChargedAt.value, at); }
  }

  /** What the meter shows is what the history collected in the period of that instant. */
  lemma UsageIsHistory(m: Mandate, log: seq<PaymentReceipt>, at: Limits.U64)
    requires MandateOk(m, log) && m.startAt <= at && (m.lastChargedAt.Some? ==> m.lastChargedAt.value <= at)
    ensures ComputeEffectivePeriodUsage(m, at).Some?
    ensures var u := ComputeEffectivePeriodUsage(m, at).value;
      && u.periodStart == PeriodStart(m.startAt, m.periodSeconds, at)
      && u.collected == Collected(log, m.id, u.periodStart, u.periodStart + m.periodSeconds)
  {
    RecordIsViewOk(m, log);
    PeriodAt(m, log, at);
    hide MandateOk;
    UsageAt(m, at);
  }

  /** The amount the search asks about: the fixed amount, or the least positive one. */
  function ProbeAmount(rule: AmountRule): int
  {
    match rule case Fixed(a) => a case Variable(_) => 1
  }

  /** Some amount the rule allows passes the precheck at instant t. */
  ghost predicate ChargeableAt(m: Mandate, t: int)
  {
    exists amount :: PrecheckCharge(m, amount, t) == Ok(())
  }

  /** The first instant the interval allows. */
  function IntervalFloor(m: Mandate): int
  {
    if m.lastChargedAt.Some? then m.lastChargedAt.value + m.minIntervalSeconds else m.startAt
  }

  predicate HasRoom(m: Mandate, t: int)
    requires m.periodSeconds > 0
  {
    var u := ComputeEffectivePeriodUsage(m, t).value;
    u.collected + ProbeAmount(m.amountRule) <= u.max
  }

  /** Only the probe amount matters: if any amount passes, it does. */
  lemma ChargeableMeaning(m: Mandate, t: int)
    requires ViewOk(m)
    ensures ChargeableAt(m, t) <==>
      && m.status == Active
      && (m.maxSuccessfulCharges == 0 || m.successfulCharges < m.maxSuccessfulCharges)
      && m.startAt <= t < m.expiresAt && IntervalFloor(m) <= t
      && HasRoom(m, t)
  {
    if m.startAt <= t && IntervalFloor(m) <= t {
      UsageAt(m, t);
      if HasRoom(m, t) && t < m.expiresAt {
        var probe := PrecheckCharge(m, ProbeAmount(m.amountRule), t);
        assert m.status == Active && (m.maxSuccessfulCharges == 0 || m.successfulCharges < m.maxSuccessfulCharges) ==> probe == Ok(());
      }
    }
  }

  /** A full period has room again at its end, and nowhere before: one rollover is always enough. */
  lemma RoomAfterRollover(m: Mandate, t: int)
    requires ViewOk(m) && m.startAt <= t && IntervalFloor(m) <= t && !HasRoom(m, t)
    ensures ComputeEffectivePeriodUsage(m, t).Some?
    ensures var next := ComputeEffectivePeriodUsage(m, t).value.periodStart + m.periodSeconds;
      && t < next
      && HasRoom(m, next)
      && forall u | t <= u < next :: !HasRoom(m, u)
  {
    UsageAt(m, t);
    var k := Index(m.startAt, m.periodSeconds, t);
    var next := PeriodStart(m.startAt, m.periodSeconds, t) + m.periodSeconds;
    InPeriod(m.startAt, m.periodSeconds, t, k);
    BoundaryOrder(m.startAt, m.periodSeconds, 0, k);
    assert next == Boundary(m.startAt, m.periodSeconds, k + 1);
    InPeriod(m.startAt, m.periodSeconds, next, k + 1);
    UsageAt(m, next);
    forall u | t <= u < next
      ensures !HasRoom(m, u)
    {
      InPeriod(m.startAt, m.periodSeconds, u, k);
      UsageAt(m, u);
    }
  }

  /**
   * The least instant at which a charge passes the precheck, or None when no
   * instant is left. RoomAfterRollover is why the search never needs a third
   * round.
   */
  method ComputeNextEligibleChargeDate(m: Mandate) returns (next: Option<int>)
    requires ViewOk(m)
    ensures next.None? <==> forall t :: !ChargeableAt(m, t)
    ensures next.Some? ==> ChargeableAt(m, next.value)
    ensures next.Some? ==> forall t :: ChargeableAt(m, t) ==> next.value <= t
  {
    forall t ensures ChargeableAt(m, t) ==> m.startAt <= t < m.expiresAt && IntervalFloor(m) <= t && HasRoom(m, t) {
      ChargeableMeaning(m, t);
    }
    ChargeableMeaning(m, m.startAt);
    if m.status != Active {
      forall t ensures !ChargeableAt(m, t) { ChargeableMeaning(m, t); }
      return None;
    }
    if m.maxSuccessfulCharges != 0 && m.successfulCharges >= m.maxSuccessfulCharges {
      forall t ensures !ChargeableAt(m, t) { ChargeableMeaning(m, t); }
      return None;
    }
    var intervalFloor := IntervalFloor(m);
    var candidate := if intervalFloor > m.startAt then intervalFloor else m.startAt;
    var probeAmount := ProbeAmount(m.amountRule);
    var i := 0;
    while i < 4
      invariant m.startAt <= candidate && intervalFloor <= candidate
      invariant forall t :: ChargeableAt(m, t) ==> candidate <= t
      invariant i <= 1 && (i == 1 ==> HasRoom(m, candidate))
      decreases 4 - i
    {
      if candidate >= m.expiresAt { return None; }
      UsageAt(m, candidate);
      var usage := ComputeEffectivePeriodUsage(m, candidate).value;
      if usage.collected + probeAmount <= usage.max {
        ChargeableMeaning(m, candidate);
        return Some(candidate);
      }
      RoomAfterRollover(m, candidate);
      candidate := usage.periodStart + m.periodSeconds;
      i := i + 1;
    }
    // The search is over by the second round: a return after the loop would never be reached.
    assert false;
  }

  /**
   * Chargeable means chargeable on chain: from an active live read, an instant
   * is chargeable exactly when the contract would let some amount through to
   * the token at that ledger time.
   */
  lemma ChargeableIsOnChain(reg: RegistrySpec.Registry, id: Hash, readAt: int, t: U64, auth: set<Address>, chargeId: Hash)
    requires RegistryOk(reg) && id in reg.mandates
    requires reg.mandates[id].merchant in auth && (id, chargeId) !in reg.usedCharges
    requires RegistrySpec.GetMandate(reg, readAt, id).value.status == Active
    ensures ChargeableAt(RegistrySpec.GetMandate(reg, readAt, id).value, t)
       <==> exists amount: I128 :: RegistrySpec.ChargePlan(reg, t, auth, id, chargeId, amount).Ok?
  {
    hide RegistryOk, RegistrySpec.ChargePlan;
    var m := reg.mandates[id];
    var view := RegistrySpec.GetMandate(reg, t, id).value;
    forall amount | PrecheckCharge(m, amount, t) == Ok(())
      ensures 0 < amount <= I128_MAX
    {
      PassedAmountFits(m, amount, t);
    }
    forall amount: I128
      ensures PrecheckCharge(m, amount, t) == Ok(()) <==> RegistrySpec.ChargePlan(reg, t, auth, id, chargeId, amount).Ok?
    {
      PrecheckRefinesCharge(reg, t, auth, id, chargeId, amount);
    }
    if ChargeableAt(m, t) {
      var amount :| PrecheckCharge(m, amount, t) == Ok(());
      var fits: I128 := amount;
      assert RegistrySpec.ChargePlan(reg, t, auth, id, chargeId, fits).Ok?;
    }
  }
}
