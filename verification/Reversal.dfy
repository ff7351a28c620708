/** The cumulative pro-rata rounding of `_cumulative_reversal`. */
module Reversal {
  import opened Prelude

  function Ceil(n: int, d: int): int
    requires d > 0
  {
    (n + d - 1) / d
  }

  // (cumulative amount, cumulative credits, credits to reverse now)
  function CumulativeReversal(original: int, granted: int, amount: int, credits: int, event: int): Result<(int, int,
      int)> {
    var total := amount + event;
    if original <= 0 || granted <= 0 || event <= 0 || total > original then Err(PaymentReversalAmountInvalid)
    else
      var cumulative := Min(granted, Ceil(granted * total, original));
      if cumulative < credits then Err(PaymentReversalStateCorrupt)
      else Ok((total, cumulative, cumulative - credits))
  }

  // ---- Rounding facts ----

  lemma MulMono(g: int, a: int, b: int)
    requires g >= 0 && a <= b
    ensures g * a <= g * b
  {}

  // Ceil is the least whole number of units that covers the fraction.
  lemma CeilLeast(n: int, d: int, q: int)
    requires d > 0
    ensures Ceil(n, d) * d >= n && (q * d >= n ==> q >= Ceil(n, d))
  {
    var c := Ceil(n, d);
    assert c * d == n + d - 1 - (n + d - 1) % d;
    if q < c { MulMono(d, q, c - 1); }
  }

  lemma CeilMono(m: int, n: int, d: int)
    requires d > 0 && m <= n
    ensures Ceil(m, d) <= Ceil(n, d)
  {
    CeilLeast(n, d, 0);
    CeilLeast(m, d, Ceil(n, d));
  }

  lemma CeilWhole(g: int, d: int)
    requires d > 0
    ensures Ceil(g * d, d) == g && Ceil(0, d) == 0
  {
    CeilLeast(g * d, d, g);
    if Ceil(g * d, d) < g { MulMono(d, Ceil(g * d, d), g - 1); }
  }

  // ---- One step, from a state that rounds what was reversed so far ----

  // With the credits of the running total, a step neither hits the corrupt error nor
  // the cap at `granted`, reverses a non-negative number of credits, and lands on
  // the credits of the new total; it is refused exactly when the amount is not
  // positive or exceeds what is left of the payment.
  lemma StepExact(original: int, granted: int, amount: int, event: int)
    requires original > 0 && granted > 0 && 0 <= amount <= original
    ensures
      var r := CumulativeReversal(original, granted, amount, Ceil(granted * amount, original), event);
      && (r.Ok? <==> 0 < event <= original - amount)
      && (r.Err? ==> r.error == PaymentReversalAmountInvalid)
      && (r.Ok? ==> r.value.0 == amount + event && r.value.1 == Ceil(granted * (amount + event), original)
                    && 0 <= r.value.2 == r.value.1 - Ceil(granted * amount, original) && r.value.1 <= granted)
  {
    if 0 < event <= original - amount {
      var total := amount + event;
      MulMono(granted, amount, total);
      CeilMono(granted * amount, granted * total, original);
      MulMono(granted, total, original);
      CeilMono(granted * total, granted * original, original);
      CeilWhole(granted, original);
    }
  }

  // ---- Any split of a reversed amount ----

  function Sum(parts: seq<int>): int {
    if |parts| == 0 then 0 else Sum(parts[..|parts| - 1]) + parts[|parts| - 1]
  }

  // Reverse the parts one by one: (amount, credits, credits taken by each part).
  function ReverseParts(original: int, granted: int, parts: seq<int>): Result<(int, int, seq<int>)> {
    if |parts| == 0 then Ok((0, 0, []))
    else
      var (amount, credits, steps) :- ReverseParts(original, granted, parts[..|parts| - 1]);
      var (total, cumulative, step) :- CumulativeReversal(original, granted, amount, credits, parts[|parts| - 1]);
      Ok((total, cumulative, steps + [step]))
  }

  // Any split into positive parts ends with the same credits as one reversal of the
  // whole amount, and reversing the whole payment reverses exactly the whole grant.
  lemma {:induction false} PartitionIndependent(original: int, granted: int, parts: seq<int>)
    requires original > 0 && granted > 0 && (forall i :: 0 <= i < |parts| ==> parts[i] > 0) && Sum(parts) <= original
    ensures
      var r := ReverseParts(original, granted, parts);
      && r.Ok? && r.value.0 == Sum(parts) && 0 <= Sum(parts)
      && r.value.1 == Ceil(granted * Sum(parts), original) == Sum(r.value.2)
      && (forall i :: 0 <= i < |r.value.2| ==> r.value.2[i] >= 0)
      && (Sum(parts) == original ==> r.value.1 == granted)
  {
    CeilWhole(granted, original);
    if |parts| > 0 {
      var init := parts[..|parts| - 1];
      PartitionIndependent(original, granted, init);
      StepExact(original, granted, Sum(init), parts[|parts| - 1]);
      var r := ReverseParts(original, granted, parts).value;
      assert r.2[..|r.2| - 1] == ReverseParts(original, granted, init).value.2;
    }
  }
}
