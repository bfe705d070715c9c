/** Positional numbers: powers, the digits of a number in a given base, and
    the value of joined decimal strings. The daily solutions pick operators
    from the bits of a counter (day 7) and split or join decimal forms
    (days 7 and 11). */
module Digits {
  import opened Parse
  import Grid

  function Pow(b: nat, e: nat): (r: nat)
    ensures b >= 1 ==> r >= 1
    decreases e
  {
    if e == 0 then 1 else b * Pow(b, e - 1)
  }

  lemma PowAdd(b: nat, e: nat, f: nat)
    ensures Pow(b, e + f) == Pow(b, e) * Pow(b, f)
    decreases e
  {
    if e > 0 {
      PowAdd(b, e - 1, f);
      MulAssoc(b, Pow(b, e - 1), Pow(b, f));
    }
  }

  lemma MulAssoc(a: int, b: int, c: int)
    ensures a * (b * c) == (a * b) * c
  {
  }

  /** A digit below the base put in front of a number below `p` stays below `base * p`. */
  lemma DigitInFront(d: nat, base: nat, rest: nat, p: nat)
    requires d < base && rest < p
    ensures d + base * rest < base * p
  {
    Grid.MulLe(rest + 1, p, base);
    assert (rest + 1) * base == base * rest + base;
  }

  /** The digit of weight `base^i` in `n`. */
  function Digit(n: nat, base: nat, i: nat): (d: nat)
    requires base >= 2
    ensures d < base
    decreases i
  {
    if i == 0 then n % base else Digit(n / base, base, i - 1)
  }

  /** Digit `i` is what is left below `base` after dividing by `base^i`. */
  lemma {:induction false} DigitIsShiftedRemainder(n: nat, base: nat, i: nat)
    requires base >= 2
    ensures Digit(n, base, i) == (n / Pow(base, i)) % base
    decreases i
  {
    if i > 0 {
      DigitIsShiftedRemainder(n / base, base, i - 1);
      DivDiv(n, base, Pow(base, i - 1));
    }
  }

  /** The number whose digits, least significant first, are `ds`. */
  function Encode(ds: seq<nat>, base: nat): nat
    decreases |ds|
  {
    if ds == [] then 0 else ds[0] + base * Encode(ds[1..], base)
  }

  predicate DigitsBelow(ds: seq<nat>, base: nat) {
    forall j :: 0 <= j < |ds| ==> ds[j] < base
  }

  lemma {:induction false} EncodeBound(ds: seq<nat>, base: nat)
    requires base >= 2 && DigitsBelow(ds, base)
    ensures Encode(ds, base) < Pow(base, |ds|)
    decreases |ds|
  {
    if ds != [] {
      var rest := Encode(ds[1..], base);
      EncodeBound(ds[1..], base);
      DigitInFront(ds[0], base, rest, Pow(base, |ds| - 1));
    }
  }

  /** Dividing by `a * b` is dividing by `a` and then by `b`. */
  lemma DivDiv(x: nat, a: nat, b: nat)
    requires a > 0 && b > 0
    ensures x / (a * b) == (x / a) / b
  {
    var q, r := x / a, x % a;
    var q2, r2 := q / b, q % b;
    assert x == q * a + r;
    assert q == q2 * b + r2;
    assert x == q2 * (a * b) + (r2 * a + r) by {
      assert q * a == (q2 * b + r2) * a;
      assert (q2 * b + r2) * a == q2 * (a * b) + r2 * a;
    }
    assert r2 * a + r < a * b by {
      Grid.MulLe(r2 + 1, b, a);
      assert (r2 + 1) * a == r2 * a + a;
    }
    Grid.DivModUnique(x, a * b, q2, r2 * a + r);
  }

  /** Digit `i` of an encoded number is the `i`-th digit it was built from. */
  lemma {:induction false} EncodeDigits(ds: seq<nat>, base: nat, i: nat)
    requires base >= 2 && DigitsBelow(ds, base) && i < |ds|
    ensures Digit(Encode(ds, base), base, i) == ds[i]
    decreases i
  {
    var n := Encode(ds, base);
    var rest := Encode(ds[1..], base);
    assert n == rest * base + ds[0];
    Grid.DivModUnique(n, base, rest, ds[0]);
    if i > 0 {
      EncodeDigits(ds[1..], base, i - 1);
    }
  }

  lemma AllDigitsAppend(s: string, t: string)
    requires AllDigits(s) && AllDigits(t)
    ensures AllDigits(s + t)
  {
    assert forall i :: 0 <= i < |s + t| ==> (s + t)[i] == if i < |s| then s[i] else t[i - |s|];
  }

  /** Writing `t` after `s` shifts `s` left by `|t|` decimal places. */
  lemma {:induction false} DecimalValueAppend(s: string, t: string)
    requires AllDigits(s) && AllDigits(t)
    ensures AllDigits(s + t)
    ensures DecimalValue(s + t) == DecimalValue(s) * Pow(10, |t|) + DecimalValue(t)
    decreases |t|
  {
    AllDigitsAppend(s, t);
    if t == [] {
      assert s + t == s;
    } else {
      var init := t[..|t| - 1];
      assert AllDigits(init);
      assert (s + t)[..|s + t| - 1] == s + init;
      DecimalValueAppend(s, init);
      var v := DecimalValue(s);
      calc {
        DecimalValue(s + t);
        10 * DecimalValue(s + init) + DigitValue(t[|t| - 1]);
        10 * (v * Pow(10, |init|) + DecimalValue(init)) + DigitValue(t[|t| - 1]);
        { MulAssoc(10, v, Pow(10, |init|));
          MulAssoc(v, 10, Pow(10, |init|)); }
        v * Pow(10, |t|) + (10 * DecimalValue(init) + DigitValue(t[|t| - 1]));
      }
    }
  }
}
