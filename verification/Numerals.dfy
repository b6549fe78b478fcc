/**
 Positional numerals, most significant digit first. Base 10 serves the amount
 parser and printer, base 256 the 32-byte integers and base 16 the hex strings.
 */
module Numerals {

  type Base = b: nat | b >= 2 witness 2

  function Pow(b: nat, k: nat): nat {
    if k == 0 then 1 else b * Pow(b, k - 1)
  }

  ghost predicate DigitsBelow(ds: seq<nat>, b: nat) {
    forall i :: 0 <= i < |ds| ==> ds[i] < b
  }

  function Value(ds: seq<nat>, b: nat): nat {
    if ds == [] then 0 else Value(ds[..|ds| - 1], b) * b + ds[|ds| - 1]
  }

  /** The shortest numeral of `n`; zero is written with one digit. */
  function Digits(n: nat, b: Base): (ds: seq<nat>)
    ensures |ds| >= 1 && DigitsBelow(ds, b)
    decreases n
  {
    if n < b then [n] else
      assert n / b < n by { QuotientSmaller(n, b); }
      Digits(n / b, b) + [n % b]
  }

  function Zeros(k: nat): seq<nat> {
    seq(k, _ => 0)
  }

  lemma QuotientSmaller(n: nat, b: Base)
    requires n >= b
    ensures n / b < n
  {
    var q := n / b;
    assert n == q * b + n % b;
    assert q * b == q * 2 + q * (b - 2);
  }

  lemma ProductStep(x: nat, y: nat, b: nat)
    ensures x < y ==> x * b + b <= y * b
    ensures x <= y ==> x * b <= y * b
  {
    if x < y {
      var d: nat := y - x - 1;
      assert y * b == (x + 1 + d) * b == x * b + b + d * b;
    }
  }

  /**
   Product, quotient and remainder by repeated addition and subtraction. They are
   `*`, `/` and `%`; spelled out like this they do not burden proofs that only pass them on.
   */
  function Times(n: nat, x: nat): nat {
    if n == 0 then 0 else Times(n - 1, x) + x
  }

  function Quotient(n: nat, p: nat): nat
    requires p >= 1
  {
    if n < p then 0 else 1 + Quotient(n - p, p)
  }

  function Remainder(n: nat, p: nat): nat
    requires p >= 1
  {
    if n < p then n else Remainder(n - p, p)
  }

  lemma {:induction false} TimesIsProduct(n: nat, x: nat)
    ensures Times(n, x) == n * x
  {
    if n > 0 {
      TimesIsProduct(n - 1, x);
    }
  }

  /** Dividing splits a number. */
  lemma {:induction false} DivisionSplits(n: nat, p: nat)
    requires p >= 1
    ensures n == Times(Quotient(n, p), p) + Remainder(n, p) && Remainder(n, p) < p
  {
    if n >= p {
      DivisionSplits(n - p, p);
    }
  }

  lemma DivisionAgrees(n: nat, p: nat)
    requires p >= 1
    ensures Quotient(n, p) == n / p && Remainder(n, p) == n % p
  {
    DivisionSplits(n, p);
    TimesIsProduct(Quotient(n, p), p);
    RemainderOf(Quotient(n, p), p, Remainder(n, p));
  }

  lemma DivMod(n: nat, b: nat)
    requires b >= 1
    ensures n == n / b * b + n % b
  {
  }

  lemma BelowProduct(q: nat, r: nat, p: nat, b: nat)
    requires r < b
    ensures q * b + r < b * p <==> q < p
  {
    ProductStep(q, p, b);
    ProductStep(p, q, b);
  }

  lemma PowPositive(b: Base, k: nat)
    ensures Pow(b, k) >= 1
  {
    if k > 0 {
      PowPositive(b, k - 1);
    }
  }

  lemma {:induction false} PowSum(b: nat, j: nat, k: nat)
    ensures Pow(b, j + k) == Pow(b, j) * Pow(b, k)
  {
    if j > 0 {
      PowSum(b, j - 1, k);
      assert Pow(b, j + k) == b * Pow(b, j - 1 + k);
      assert b * (Pow(b, j - 1) * Pow(b, k)) == (b * Pow(b, j - 1)) * Pow(b, k);
    }
  }

  lemma {:induction false} ValueOfDigits(n: nat, b: Base)
    ensures Value(Digits(n, b), b) == n
    decreases n
  {
    if n < b {
      assert Digits(n, b)[..0] == [];
    } else {
      QuotientSmaller(n, b);
      ValueOfDigits(n / b, b);
      var ds := Digits(n, b);
      assert ds[..|ds| - 1] == Digits(n / b, b);
      DivMod(n, b);
    }
  }

  lemma {:induction false} ValueOfConcat(ds: seq<nat>, es: seq<nat>, b: nat)
    ensures Value(ds + es, b) == Value(ds, b) * Pow(b, |es|) + Value(es, b)
    decreases |es|
  {
    if es == [] {
      assert ds + es == ds;
    } else {
      var init, last := es[..|es| - 1], es[|es| - 1];
      ValueOfConcat(ds, init, b);
      assert (ds + es)[..|ds + es| - 1] == ds + init;
      var v, p := Value(ds, b), Pow(b, |init|);
      assert Value(ds + es, b) == (v * p + Value(init, b)) * b + last;
      assert (v * p + Value(init, b)) * b == v * (b * p) + Value(init, b) * b;
    }
  }

  lemma {:induction false} ValueBound(ds: seq<nat>, b: Base)
    requires DigitsBelow(ds, b)
    ensures Value(ds, b) < Pow(b, |ds|)
    decreases |ds|
  {
    if ds != [] {
      var init := ds[..|ds| - 1];
      ValueBound(init, b);
      BelowProduct(Value(init, b), ds[|ds| - 1], Pow(b, |init|), b);
    }
  }

  lemma {:induction false} ValueOfZeros(k: nat, b: nat)
    ensures Value(Zeros(k), b) == 0
  {
    if k > 0 {
      ValueOfZeros(k - 1, b);
      assert Zeros(k)[..k - 1] == Zeros(k - 1);
    }
  }

  /** Leading zeros do not change the value. */
  lemma ValueOfPadded(k: nat, ds: seq<nat>, b: nat)
    ensures Value(Zeros(k) + ds, b) == Value(ds, b)
  {
    ValueOfZeros(k, b);
    ValueOfConcat(Zeros(k), ds, b);
  }

  /** A numeral of `k >= 1` digits suffices exactly for the numbers below `b^k`. */
  lemma {:induction false} DigitsLength(n: nat, b: Base, k: nat)
    requires k >= 1
    ensures |Digits(n, b)| <= k <==> n < Pow(b, k)
    decreases k
  {
    if n < b {
      PowPositive(b, k - 1);
      ProductStep(1, Pow(b, k - 1), b);
    } else if k == 1 {
      assert Pow(b, 1) == b * Pow(b, 0) == b;
    } else {
      DigitsLength(n / b, b, k - 1);
      DivMod(n, b);
      BelowProduct(n / b, n % b, Pow(b, k - 1), b);
    }
  }

  /** Numerals of one length are determined by their value. */
  lemma {:induction false} ValueInjective(ds: seq<nat>, es: seq<nat>, b: Base)
    requires |ds| == |es| && DigitsBelow(ds, b) && DigitsBelow(es, b)
    requires Value(ds, b) == Value(es, b)
    ensures ds == es
    decreases |ds|
  {
    if ds != [] {
      var di, ei := ds[..|ds| - 1], es[..|es| - 1];
      var dl, el := ds[|ds| - 1], es[|es| - 1];
      ProductStep(Value(di, b), Value(ei, b), b);
      ProductStep(Value(ei, b), Value(di, b), b);
      ValueInjective(di, ei, b);
      assert ds == di + [dl] && es == ei + [el];
    }
  }

  lemma SplitOff(q: nat, p: nat, r: nat)
    requires r < p
    ensures Times(q, p) + Remainder(q * p + r, p) == q * p + r
  {
    TimesIsProduct(q, p);
    RemainderOf(q, p, r);
    DivisionAgrees(q * p + r, p);
  }

  lemma RemainderOf(q: nat, p: nat, r: nat)
    requires r < p
    ensures (q * p + r) % p == r && (q * p + r) / p == q
  {
    var n := q * p + r;
    ProductStep(q, n / p, p);
    ProductStep(n / p, q, p);
  }
}
