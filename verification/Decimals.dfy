/**
 Decimal numbers: the reals with finitely many digits behind the point, and the digits that write them.
 Every double has one shortest decimal, which is what Rust prints and reads back; a double is modelled
 by it. Reading a count of 64 bits rounds it to a double as `f64` does.
 */
module Decimals {
  import opened Text

  predicate IsWhole(n: real) {
    n == n.Floor as real
  }

  lemma IntIsWhole(n: real, w: int)
    requires n == w as real
    ensures IsWhole(n) && n.Floor == w
  {
  }

  // ---------- moving the point ----------

  /** `n` times ten to the `k`. */
  function Shifted(n: real, k: nat): real
    decreases k
  {
    if k == 0 then n else Shifted(10.0 * n, k - 1)
  }

  /** `n` divided by ten to the `k`. */
  function Unshifted(n: real, k: nat): real {
    if k == 0 then n else Unshifted(n, k - 1) / 10.0
  }

  /** `n` times ten to the `e`. */
  function Scaled(n: real, e: int): real {
    if e >= 0 then Shifted(n, e) else Unshifted(n, -e)
  }

  lemma {:induction false} ShiftedBack(n: real, k: nat)
    ensures Unshifted(Shifted(n, k), k) == n
    decreases k
  {
    if k > 0 {
      ShiftedBack(10.0 * n, k - 1);
    }
  }

  lemma {:induction false} UnshiftedBack(n: real, k: nat)
    ensures Shifted(Unshifted(n, k), k) == n
  {
    if k > 0 {
      UnshiftedBack(n, k - 1);
    }
  }

  lemma {:induction false} ShiftedPlus(n: real, d: int, k: nat)
    ensures Shifted(n + d as real, k) == Shifted(n, k) + (d * Pow10(k)) as real
    decreases k
  {
    if k > 0 {
      assert 10.0 * (n + d as real) == 10.0 * n + (10 * d) as real;
      ShiftedPlus(10.0 * n, 10 * d, k - 1);
      assert 10 * d * Pow10(k - 1) == d * Pow10(k);
    }
  }

  lemma {:induction false} ShiftedMore(n: real, k: nat)
    ensures Shifted(n, k + 1) == 10.0 * Shifted(n, k)
    decreases k
  {
    if k > 0 {
      ShiftedMore(10.0 * n, k - 1);
    }
  }

  lemma {:induction false} ShiftedNothing(k: nat)
    ensures Shifted(0.0, k) == 0.0
    decreases k
  {
    if k > 0 {
      assert 10.0 * 0.0 == 0.0;
      ShiftedNothing(k - 1);
    }
  }

  // ---------- decimals ----------

  /** `k` digits behind the point are enough for `n`. */
  ghost predicate Shifts(n: real, k: nat) {
    IsWhole(Shifted(n, k))
  }

  ghost predicate IsDecimal(n: real) {
    exists k: nat :: Shifts(n, k)
  }

  lemma WholeIsDecimal(n: real)
    requires IsWhole(n)
    ensures IsDecimal(n)
  {
    assert Shifts(n, 0);
  }

  type Decimal = n: real | IsDecimal(n) witness (WholeIsDecimal(0.0); 0.0)

  function Int(n: int): (d: Decimal)
    ensures d == n as real && d.Floor == n && IsWhole(d)
  {
    WholeIsDecimal(n as real);
    n as real
  }

  lemma ScaledIsDecimal(n: int, e: int)
    ensures IsDecimal(Scaled(n as real, e)) && IsDecimal(-Scaled(n as real, e))
  {
    if e >= 0 {
      ShiftedPlus(0.0, n, e);
      ShiftedNothing(e);
      var w := n * Pow10(e);
      IntIsWhole(Scaled(n as real, e), w);
      IntIsWhole(-Scaled(n as real, e), -w);
      WholeIsDecimal(Scaled(n as real, e));
      WholeIsDecimal(-Scaled(n as real, e));
    } else {
      UnshiftedBack(n as real, -e);
      assert Shifts(Scaled(n as real, e), -e);
      Negated(Scaled(n as real, e), -e);
      IntIsWhole(-(n as real), -n);
      assert Shifts(-Scaled(n as real, e), -e);
    }
  }

  lemma {:induction false} Negated(n: real, k: nat)
    ensures Shifted(-n, k) == -Shifted(n, k)
    decreases k
  {
    if k > 0 {
      Negated(10.0 * n, k - 1);
    }
  }

  function Abs(n: real): real {
    if n < 0.0 then -n else n
  }

  /** What is left of a decimal without its sign and its whole part. */
  function Fraction(n: Decimal): (f: Decimal)
    ensures 0.0 <= f < 1.0
    ensures f == Abs(n) - Abs(n).Floor as real
  {
    FractionIsDecimal(n);
    Abs(n) - Abs(n).Floor as real
  }

  lemma FractionIsDecimal(n: real)
    requires IsDecimal(n)
    ensures IsDecimal(Abs(n) - Abs(n).Floor as real)
  {
    var k: nat :| Shifts(n, k);
    Negated(n, k);
    IntIsWhole(-Shifted(n, k), -Shifted(n, k).Floor);
    assert Shifts(Abs(n), k);
    WithoutInt(Abs(n), Abs(n).Floor, k);
    assert Shifts(Abs(n) - Abs(n).Floor as real, k);
  }

  lemma WholeFraction(n: Decimal)
    requires IsWhole(n)
    ensures Fraction(n) == 0.0
  {
    IntIsWhole(Abs(n), if n < 0.0 then -n.Floor else n.Floor);
  }

  lemma WithoutInt(n: real, d: int, k: nat)
    requires Shifts(n, k)
    ensures Shifts(n - d as real, k)
  {
    ShiftedPlus(n, -d, k);
    assert n + (-d) as real == n - d as real;
    IntIsWhole(Shifted(n - d as real, k), Shifted(n, k).Floor - d * Pow10(k));
  }

  // ---------- the digits behind the point ----------

  ghost function LeastShift(n: real, k: nat): (m: nat)
    requires Shifts(n, k)
    ensures m <= k && Shifts(n, m)
    ensures m > 0 ==> !Shifts(n, m - 1)
  {
    if k > 0 && Shifts(n, k - 1) then LeastShift(n, k - 1) else k
  }

  lemma {:induction false} MoreDigits(n: real, j: nat, k: nat)
    requires Shifts(n, j) && j <= k
    ensures Shifts(n, k)
    decreases k
  {
    if j < k {
      MoreDigits(n, j, k - 1);
      ShiftedMore(n, k - 1);
      IntIsWhole(Shifted(n, k), 10 * Shifted(n, k - 1).Floor);
    }
  }

  /** How many digits a decimal has behind the point. */
  ghost function Places(n: Decimal): (k: nat)
    ensures Shifts(n, k)
    ensures forall j: nat :: Shifts(n, j) ==> k <= j
  {
    assert IsDecimal(n);
    var k: nat :| Shifts(n, k);
    var m := LeastShift(n, k);
    assert forall j: nat :: Shifts(n, j) ==> m <= j by {
      forall j: nat | Shifts(n, j) ensures m <= j {
        if j < m {
          MoreDigits(n, j, m - 1);
        }
      }
    }
    m
  }

  /** The first digit behind the point taken off. */
  function Rest(f: Decimal): (g: Decimal)
    requires 0.0 < f < 1.0
    ensures g == 10.0 * f - (10.0 * f).Floor as real && 0.0 <= g < 1.0
    ensures Places(g) < Places(f)
  {
    FewerPlaces(f);
    10.0 * f - (10.0 * f).Floor as real
  }

  lemma FewerPlaces(f: Decimal)
    requires 0.0 < f < 1.0
    ensures Places(f) > 0
    ensures Shifts(10.0 * f - (10.0 * f).Floor as real, Places(f) - 1)
  {
    var k := Places(f);
    assert f.Floor == 0;
    WithoutInt(10.0 * f, (10.0 * f).Floor, k - 1);
  }

  /** The digits behind the point, the last of them no zero. */
  function FracDigits(f: Decimal): (s: string)
    requires 0.0 <= f < 1.0
    ensures AllDigits(s)
    ensures s == "" <==> f == 0.0
    decreases Places(f)
  {
    if f == 0.0 then "" else [DigitChar((10.0 * f).Floor)] + FracDigits(Rest(f))
  }

  lemma NextDigit(a: nat, p: nat, v: nat, d: nat)
    ensures 10 * (a * p + v) + d == a * (10 * p) + (10 * v + d)
  {
  }

  lemma {:induction false} DecValueAppend(a: string, b: string)
    requires AllDigits(a) && AllDigits(b)
    ensures DecValue(a + b) == DecValue(a) * Pow10(|b|) + DecValue(b)
    decreases |b|
  {
    if b == [] {
      assert a + b == a;
    } else {
      var front, last := b[..|b| - 1], b[|b| - 1];
      assert (a + b)[..|a + b| - 1] == a + front;
      DecValueAppend(a, front);
      NextDigit(DecValue(a), Pow10(|front|), DecValue(front), DigitOf(last));
    }
  }

  lemma OneDigit(d: nat)
    requires d < 10
    ensures DecValue([DigitChar(d)]) == d
  {
    assert [DigitChar(d)][..0] == [];
  }

  lemma FrontDigit(d: nat, r: string)
    requires d < 10 && AllDigits(r)
    ensures DecValue([DigitChar(d)] + r) == d * Pow10(|r|) + DecValue(r)
  {
    OneDigit(d);
    hide DecValue, Pow10;
    DecValueAppend([DigitChar(d)], r);
  }

  lemma {:induction false} FracValue(f: Decimal)
    requires 0.0 <= f < 1.0
    ensures DecValue(FracDigits(f)) as real == Shifted(f, |FracDigits(f)|)
    decreases Places(f)
  {
    hide DecValue, Places, Pow10;
    if f == 0.0 {
      NoDigits();
    } else {
      var d, g := (10.0 * f).Floor, Rest(f);
      FracValue(g);
      FrontDigit(d, FracDigits(g));
      ShiftedPlus(g, d, |FracDigits(g)|);
      assert g + d as real == 10.0 * f;
    }
  }

  lemma NoDigits()
    ensures DecValue("") == 0 && Shifted(0.0, 0) == 0.0
  {
  }

  // ---------- counts as doubles ----------

  const TWO_53: nat := 0x20_0000_0000_0000

  /** The distance between the doubles around `n`. */
  function Ulp(n: nat): (u: nat)
    ensures u >= 1
  {
    if n < TWO_53 then 1 else 2 * Ulp(n / 2)
  }

  /** The double nearest to `n`, the even one of two. */
  function Double(n: nat): nat {
    var u := Ulp(n);
    var q, r := n / u, n % u;
    if 2 * r > u || (2 * r == u && q % 2 == 1) then (q + 1) * u else q * u
  }

  /** A count read through a double and cast to `u64`. */
  function ReadCount(n: nat): (r: nat)
    ensures r < U64_LIMIT
  {
    if Double(n) >= U64_LIMIT then U64_LIMIT - 1 else Double(n)
  }

  function Pow2(k: nat): nat {
    if k == 0 then 1 else 2 * Pow2(k - 1)
  }

  lemma {:induction false} UlpDivides(n: nat, k: nat) returns (w: nat)
    requires n < TWO_53 * Pow2(k)
    ensures Ulp(n) * w == Pow2(k)
  {
    if n < TWO_53 {
      w := Pow2(k);
    } else {
      w := UlpDivides(n / 2, k - 1);
      assert 2 * Ulp(n / 2) * w == 2 * (Ulp(n / 2) * w);
    }
  }

  lemma DoubleFits(n: nat)
    requires n < U64_LIMIT
    ensures Double(n) <= U64_LIMIT
  {
    assert Pow2(5) == 32 && Pow2(10) == 1024;
    var w := UlpDivides(n, 11);
    hide Ulp, Pow2;
    RoundedWithin(n, Ulp(n), TWO_53 * w);
    assert Ulp(n) * (TWO_53 * w) == TWO_53 * (Ulp(n) * w);
  }

  /** Rounding to a multiple of `u` does not pass the next one. */
  lemma RoundedWithin(n: nat, u: nat, m: nat)
    requires u == Ulp(n) && n < u * m
    ensures Double(n) <= u * m
  {
    hide Ulp;
    Divided(n, u, n / u, n % u);
    NextWithin(n, u, m, n / u, n % u);
  }

  lemma NextWithin(n: nat, u: nat, m: nat, q: nat, r: nat)
    requires n == q * u + r && n < u * m
    ensures q * u <= (q + 1) * u <= u * m
  {
    if q >= m {
      Scale(m, q, u);
    } else {
      Scale(q + 1, m, u);
    }
  }

  lemma Scale(a: nat, b: nat, u: nat)
    requires a <= b
    ensures a * u <= b * u
  {
  }

  /** A count a double holds, or the largest, to which the cast saturates. */
  predicate Held(n: nat) {
    n % Ulp(n) == 0 || n == U64_LIMIT - 1
  }

  /** Exactly the held counts are read back as they are. */
  lemma {:induction false} CountKept(n: nat)
    requires n < U64_LIMIT
    ensures ReadCount(n) == n <==> Held(n)
  {
    LastCount();
    Rounded(n);
    hide Ulp, Double;
  }

  lemma Rounded(n: nat)
    ensures Double(n) == n <==> n % Ulp(n) == 0
  {
    hide Ulp;
    var u := Ulp(n);
    var q, r := n / u, n % u;
    Divided(n, u, q, r);
  }

  lemma Divided(n: nat, u: nat, q: nat, r: nat)
    requires u >= 1 && q == n / u && r == n % u
    ensures n == q * u + r && (q + 1) * u == q * u + u && r < u
  {
  }

  lemma LastCount()
    ensures Double(U64_LIMIT - 1) == U64_LIMIT
  {
    assert Ulp(0x3F_FFFF_FFFF_FFFF) == 2;
    assert Ulp(0x1FF_FFFF_FFFF_FFFF) == 16;
    assert Ulp(0xFFF_FFFF_FFFF_FFFF) == 128;
    assert Ulp(0x7FFF_FFFF_FFFF_FFFF) == 1024;
    assert Ulp(U64_LIMIT - 1) == 2048;
  }
}
