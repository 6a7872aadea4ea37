/** Sums and counts over the stream of successful charges. */
module ChargeHistory {
  import opened MandateTypes

  /** What `mandate` collected at instants in [lo, hi). */
  function Collected(log: seq<PaymentReceipt>, mandate: Hash, lo: int, hi: int): int
  {
    if log == [] then 0
    else
      var r := log[|log| - 1];
      Collected(log[..|log| - 1], mandate, lo, hi)
        + if r.mandateId == mandate && lo <= r.timestamp < hi then r.amount else 0
  }

  /** How many charges of `mandate` succeeded. */
  function Charges(log: seq<PaymentReceipt>, mandate: Hash): nat
  {
    if log == [] then 0
    else Charges(log[..|log| - 1], mandate) + if log[|log| - 1].mandateId == mandate then 1 else 0
  }

  lemma Extend(log: seq<PaymentReceipt>, r: PaymentReceipt, mandate: Hash, lo: int, hi: int)
    ensures Collected(log + [r], mandate, lo, hi)
         == Collected(log, mandate, lo, hi) + if r.mandateId == mandate && lo <= r.timestamp < hi then r.amount else 0
    ensures Charges(log + [r], mandate) == Charges(log, mandate) + if r.mandateId == mandate then 1 else 0
  {
    assert (log + [r])[..|log|] == log;
  }

  /** Adjacent windows add up. */
  lemma {:induction false} Split(log: seq<PaymentReceipt>, mandate: Hash, lo: int, mid: int, hi: int)
    requires lo <= mid <= hi
    ensures Collected(log, mandate, lo, hi) == Collected(log, mandate, lo, mid) + Collected(log, mandate, mid, hi)
  {
    if log != [] { Split(log[..|log| - 1], mandate, lo, mid, hi); }
  }

  /** The receipts of `mandate` all have timestamps in [lo, hi) and amounts in (0, cap]. */
  ghost predicate Within(log: seq<PaymentReceipt>, mandate: Hash, lo: int, hi: int, cap: int)
  {
    forall i :: 0 <= i < |log| && log[i].mandateId == mandate ==> lo <= log[i].timestamp < hi && 0 < log[i].amount <= cap
  }

  lemma WithinPrefix(log: seq<PaymentReceipt>, mandate: Hash, lo: int, hi: int, cap: int)
    requires log != [] && Within(log, mandate, lo, hi, cap)
    ensures Within(log[..|log| - 1], mandate, lo, hi, cap)
  {
    var front := log[..|log| - 1];
    assert forall i :: 0 <= i < |front| ==> front[i] == log[i];
  }

  /** Windows that miss every receipt sum to zero; a wider window than the receipts changes nothing. */
  lemma {:induction false} Outside(log: seq<PaymentReceipt>, mandate: Hash, lo: int, hi: int, cap: int, a: int, b: int)
    requires Within(log, mandate, lo, hi, cap)
    ensures hi <= a ==> Collected(log, mandate, a, b) == 0
    ensures b <= lo ==> Collected(log, mandate, a, b) == 0
    ensures a <= lo && hi <= b ==> Collected(log, mandate, a, b) == Collected(log, mandate, lo, hi)
  {
    if log != [] {
      WithinPrefix(log, mandate, lo, hi, cap);
      Outside(log[..|log| - 1], mandate, lo, hi, cap, a, b);
    }
  }

  lemma {:induction false} Bounds(log: seq<PaymentReceipt>, mandate: Hash, lo: int, hi: int, cap: int, a: int, b: int)
    requires Within(log, mandate, lo, hi, cap) && 0 <= cap
    ensures 0 <= Collected(log, mandate, a, b) <= cap * Charges(log, mandate)
  {
    if log != [] {
      WithinPrefix(log, mandate, lo, hi, cap);
      Bounds(log[..|log| - 1], mandate, lo, hi, cap, a, b);
      assert cap * (Charges(log[..|log| - 1], mandate) + 1) == cap * Charges(log[..|log| - 1], mandate) + cap;
    }
  }

  lemma {:induction false} NoCharges(log: seq<PaymentReceipt>, mandate: Hash, lo: int, hi: int)
    requires forall i :: 0 <= i < |log| ==> log[i].mandateId != mandate
    ensures Collected(log, mandate, lo, hi) == 0 && Charges(log, mandate) == 0
  {
    if log != [] { NoCharges(log[..|log| - 1], mandate, lo, hi); }
  }
}
