/** The check of payment card numbers: the formula of Annex B of ISO/IEC 7812-1. */
module Luhn {

  type Digit = d: int | 0 <= d < 10

  function Weight(d: Digit, doubled: bool): (w: Digit) {
    if !doubled then d else if 2 * d > 9 then 2 * d - 9 else 2 * d
  }

  /** Weights from the right, every second one doubled; `doubled` is about the last digit. */
  function WeightSum(ds: seq<Digit>, doubled: bool): (s: nat)
    decreases |ds|
  {
    if ds == [] then 0
    else Weight(ds[|ds| - 1], doubled) + WeightSum(ds[..|ds| - 1], !doubled)
  }

  predicate Passes(ds: seq<Digit>) {
    WeightSum(ds, false) % 10 == 0
  }

  /** One pass from the right. */
  method Check(ds: seq<Digit>) returns (ok: bool)
    ensures ok == Passes(ds)
  {
    var total, doubled := 0, false;
    assert ds[..|ds|] == ds;
    for i := |ds| downto 0
      invariant total + WeightSum(ds[..i], doubled) == WeightSum(ds, false)
    {
      assert ds[..i + 1][..i] == ds[..i];
      var value: int := ds[i];
      if doubled {
        value := value * 2;
        if value > 9 {
          value := value - 9;
        }
      }
      total := total + value;
      doubled := !doubled;
    }
    ok := total % 10 == 0;
  }

  /** The digits on the left are weighed as the number of digits on the right demands. */
  lemma {:induction false} WeightSumJoin(xs: seq<Digit>, ys: seq<Digit>, doubled: bool)
    ensures WeightSum(xs + ys, doubled) == WeightSum(xs, doubled != (|ys| % 2 == 1)) + WeightSum(ys, doubled)
    decreases |ys|
  {
    var n := |ys|;
    if n == 0 {
      assert xs + ys == xs;
    } else {
      assert (xs + ys)[..|xs + ys| - 1] == xs + ys[..n - 1];
      WeightSumJoin(xs, ys[..n - 1], !doubled);
    }
  }

  lemma WeightSumOfOne(d: Digit, doubled: bool)
    ensures WeightSum([d], doubled) == Weight(d, doubled)
  {
    assert WeightSum([d][..0], !doubled) == 0;
  }

  /** The part of the sum that a middle segment contributes. */
  lemma WeightSumAround(left: seq<Digit>, middle: seq<Digit>, right: seq<Digit>)
    ensures WeightSum(left + middle + right, false)
            == WeightSum(left, (|middle| + |right|) % 2 == 1) + WeightSum(middle, |right| % 2 == 1)
               + WeightSum(right, false)
  {
    WeightSumJoin(left + middle, right, false);
    WeightSumJoin(left, middle, |right| % 2 == 1);
  }

  lemma RemainderShifts(s: int, x: int, y: int)
    ensures (s + x) % 10 == (s + y) % 10 <==> x % 10 == y % 10
  {
    var q, r := (s + x) / 10 - (s + y) / 10, x / 10 - y / 10;
    assert x - y == 10 * q + ((s + x) % 10 - (s + y) % 10);
    assert x - y == 10 * r + (x % 10 - y % 10);
  }

  /** One digit in the middle decides the remainder. */
  lemma DigitDecides(left: seq<Digit>, a: Digit, b: Digit, right: seq<Digit>)
    ensures WeightSum(left + [a] + right, false) % 10 == WeightSum(left + [b] + right, false) % 10 <==> a == b
  {
    var doubled := |right| % 2 == 1;
    WeightSumAround(left, [a], right);
    WeightSumAround(left, [b], right);
    WeightSumOfOne(a, doubled);
    WeightSumOfOne(b, doubled);
    var rest := WeightSum(left, (1 + |right|) % 2 == 1) + WeightSum(right, false);
    RemainderShifts(rest, Weight(a, doubled), Weight(b, doubled));
    WeightIsInjective(a, b, doubled);
  }

  lemma WeightIsInjective(a: Digit, b: Digit, doubled: bool)
    ensures Weight(a, doubled) % 10 == Weight(b, doubled) % 10 <==> a == b
  {
    assert Weight(a, doubled) % 10 == Weight(a, doubled) as int;
    assert Weight(b, doubled) % 10 == Weight(b, doubled) as int;
  }

  /** A changed digit is always noticed. */
  lemma SingleErrorIsDetected(ds: seq<Digit>, k: nat, d: Digit)
    requires k < |ds| && Passes(ds) && d != ds[k]
    ensures !Passes(ds[k := d])
  {
    var left, right := ds[..k], ds[k + 1..];
    assert ds == left + [ds[k]] + right && ds[k := d] == left + [d] + right;
    DigitDecides(left, ds[k], d, right);
  }

  function CheckDigit(prefix: seq<Digit>): Digit {
    (10 - WeightSum(prefix, true) % 10) % 10
  }

  /** Exactly one final digit completes a number. */
  lemma CheckDigitIsUnique(prefix: seq<Digit>, d: Digit)
    ensures Passes(prefix + [d]) <==> d == CheckDigit(prefix)
  {
    WeightSumJoin(prefix, [d], false);
    WeightSumOfOne(d, false);
    CompletesToTen(WeightSum(prefix, true), d);
  }

  lemma CompletesToTen(s: nat, d: Digit)
    ensures (s + d) % 10 == 0 <==> d == (10 - s % 10) % 10
  {
    assert s == 10 * (s / 10) + s % 10;
    RemainderShifts(10 * (s / 10), s % 10 + d, 0);
    assert (10 * (s / 10)) % 10 == 0;
  }

  lemma WeightSumOfTwo(a: Digit, b: Digit, doubled: bool)
    ensures WeightSum([a, b], doubled) == Weight(a, !doubled) + Weight(b, doubled)
  {
    assert [a, b][..1] == [a];
    WeightSumOfOne(a, !doubled);
  }

  lemma SwappedWeights(a: Digit, b: Digit, doubled: bool)
    ensures (Weight(a, !doubled) + Weight(b, doubled)) % 10 == (Weight(b, !doubled) + Weight(a, doubled)) % 10
            <==> a == b || (a == 0 && b == 9) || (a == 9 && b == 0)
  {
    var x, y := Weight(a, !doubled) + Weight(b, doubled), Weight(b, !doubled) + Weight(a, doubled);
    RemaindersAgree(x, y);
    var carry := (if b > 4 then 9 else 0) - if a > 4 then 9 else 0;
    assert x - y == if doubled then b - a - carry else a - b + carry;
  }

  lemma RemaindersAgree(x: nat, y: nat)
    requires -20 < x - y < 20
    ensures x % 10 == y % 10 <==> x - y == -10 || x - y == 0 || x - y == 10
  {
    var q := x / 10 - y / 10;
    assert x - y == 10 * q + (x % 10 - y % 10);
  }

  /** Swapping unequal neighbours is noticed unless they are 0 and 9. */
  lemma TranspositionIsDetectedUnlessZeroNine(ds: seq<Digit>, k: nat)
    requires k + 1 < |ds| && Passes(ds) && ds[k] != ds[k + 1]
    ensures Passes(ds[k := ds[k + 1]][k + 1 := ds[k]]) <==>
              (ds[k] == 0 && ds[k + 1] == 9) || (ds[k] == 9 && ds[k + 1] == 0)
  {
    var left, right, a, b := ds[..k], ds[k + 2..], ds[k], ds[k + 1];
    assert ds == left + [a, b] + right;
    assert ds[k := b][k + 1 := a] == left + [b, a] + right;
    SwapDecides(left, a, b, right);
  }

  /** Two digits in the middle, exchanged, keep the remainder exactly if they are equal or 0 and 9. */
  lemma SwapDecides(left: seq<Digit>, a: Digit, b: Digit, right: seq<Digit>)
    ensures WeightSum(left + [a, b] + right, false) % 10 == WeightSum(left + [b, a] + right, false) % 10 <==>
              a == b || (a == 0 && b == 9) || (a == 9 && b == 0)
  {
    WeightSumAround(left, [a, b], right);
    WeightSumAround(left, [b, a], right);
    var doubled := |right| % 2 == 1;
    WeightSumOfTwo(a, b, doubled);
    WeightSumOfTwo(b, a, doubled);
    SwappedWeights(a, b, doubled);
    var rest := WeightSum(left, (2 + |right|) % 2 == 1) + WeightSum(right, false);
    RemainderShifts(rest, Weight(a, !doubled) + Weight(b, doubled), Weight(b, !doubled) + Weight(a, doubled));
  }
}
