/** Rounding a count to a double: what `as f64` promises of a 64-bit count. */
module Doubles {
  import opened Decimals

  const TWO_52: nat := 0x10_0000_0000_0000

  /** The distance between doubles is a power of two, and the doubles have 53 binary digits. */
  lemma {:induction false} UlpShape(n: nat) returns (e: nat)
    ensures Ulp(n) == Pow2(e) && n < TWO_53 * Pow2(e) && (e > 0 ==> TWO_52 * Pow2(e) <= n)
  {
    if n < TWO_53 {
      e := 0;
    } else {
      var d := UlpShape(n / 2);
      e := d + 1;
      assert TWO_53 * Pow2(e) == 2 * (TWO_53 * Pow2(d)) && TWO_52 * Pow2(e) == 2 * (TWO_52 * Pow2(d));
    }
  }

  lemma {:induction false} UlpOf(k: nat, e: nat)
    requires k < TWO_53 && (e > 0 ==> TWO_52 <= k)
    ensures Ulp(k * Pow2(e)) == Pow2(e)
  {
    if e > 0 {
      var half := k * Pow2(e - 1);
      UlpOf(k, e - 1);
      assert k * Pow2(e) == 2 * half;
      assert TWO_52 * 1 <= k * Pow2(e - 1) by {
        PowPositive(e - 1);
        Scale(TWO_52, k, Pow2(e - 1));
        Scale(1, Pow2(e - 1), TWO_52);
      }
      assert 2 * half / 2 == half;
    }
  }

  lemma {:induction false} PowPositive(e: nat)
    ensures Pow2(e) >= 1
  {
    if e > 0 {
      PowPositive(e - 1);
    }
  }

  lemma Multiple(k: nat, u: nat)
    requires u >= 1
    ensures (k * u) % u == 0
  {
    Apart(k, u, k * u, k * u / u, k * u % u);
  }

  lemma Apart(k: nat, u: nat, n: nat, q: nat, r: nat)
    requires u >= 1 && n == k * u && q == n / u && r == n % u
    ensures r == 0
  {
    Divided(n, u, q, r);
    SameQuotient(k, u, q, r);
  }

  lemma SameQuotient(k: nat, u: nat, q: nat, r: nat)
    requires k * u == q * u + r && r < u
    ensures r == 0
  {
    if k > q {
      Scale(q + 1, k, u);
    } else if k < q {
      Scale(k + 1, q, u);
    }
  }

  /** A rounded count is a double. */
  lemma {:induction false} DoubleIsHeld(n: nat)
    ensures Double(n) % Ulp(Double(n)) == 0
  {
    var e := UlpShape(n);
    var u := Ulp(n);
    var q, r := n / u, n % u;
    hide Ulp, Pow2;
    Divided(n, u, q, r);
    QuotientRange(n, u, q, r, e);
    var k := if Double(n) == q * u then q else q + 1;
    assert Double(n) == k * u;
    if k < TWO_53 {
      UlpOf(k, e);
      Multiple(k, u);
    } else {
      PowStep(e);
      UlpOf(TWO_52, e + 1);
      assert k * u == TWO_52 * (2 * u);
      Multiple(TWO_52, 2 * u);
    }
  }

  lemma PowStep(e: nat)
    ensures Pow2(e + 1) == 2 * Pow2(e)
  {
  }

  lemma QuotientRange(n: nat, u: nat, q: nat, r: nat, e: nat)
    requires n == q * u + r && r < u && n < TWO_53 * u && (e > 0 ==> TWO_52 * u <= n)
    ensures q < TWO_53 && (e > 0 ==> TWO_52 <= q)
  {
    if q >= TWO_53 {
      Scale(TWO_53, q, u);
    }
    if e > 0 && q < TWO_52 {
      Scale(q + 1, TWO_52, u);
    }
  }

  lemma ReadIsHeld(n: nat)
    ensures Held(ReadCount(n))
  {
    DoubleIsHeld(n);
    hide Ulp, Double;
  }

  // ---------- nearest, and even of two ----------

  /** A number a double can be: 53 binary digits and a power of two. */
  ghost predicate IsDouble(v: nat) {
    exists k: nat, e: nat :: Parts(v, k, e)
  }

  ghost predicate Parts(v: nat, k: nat, e: nat) {
    k < TWO_53 && v == k * Pow2(e)
  }

  function Gap(a: nat, b: nat): nat {
    if a < b then b - a else a - b
  }

  /** A power of two is a multiple of every smaller one. */
  lemma {:induction false} PowDivides(e: nat, f: nat) returns (w: nat)
    requires e <= f
    ensures Pow2(f) == w * Pow2(e)
  {
    if e == f {
      w := 1;
    } else {
      var v := PowDivides(e, f - 1);
      w := 2 * v;
      Doubled(Pow2(f - 1), v, Pow2(e));
    }
  }

  lemma Doubled(p: nat, v: nat, u: nat)
    requires p == v * u
    ensures 2 * p == 2 * v * u
  {
  }

  lemma {:induction false} PowGrows(e: nat, f: nat)
    requires e < f
    ensures 2 * Pow2(e) <= Pow2(f)
  {
    if e + 1 < f {
      PowGrows(e, f - 1);
    }
    PowPositive(f - 1);
  }

  lemma Regroup(k: nat, w: nat, u: nat)
    ensures k * (w * u) == (k * w) * u
  {
  }

  lemma Below(k: nat, a: nat, b: nat)
    requires k < TWO_53 && 1 <= a && 2 * a <= b
    ensures k * a < TWO_52 * b
  {
    Scale(k + 1, TWO_53, a);
    assert TWO_53 * a == TWO_52 * (2 * a);
    assert TWO_52 * (2 * a) <= TWO_52 * b;
  }

  /** A double is a multiple of the distance around `n`, or below every double around `n`. */
  lemma Grid(v: nat, e: nat) returns (m: nat)
    requires IsDouble(v)
    ensures v == m * Pow2(e) || (e > 0 && v < TWO_52 * Pow2(e))
  {
    hide Pow2;
    var k: nat, f: nat :| Parts(v, k, f);
    m := 0;
    if e <= f {
      var w := PowDivides(e, f);
      m := k * w;
      Regroup(k, w, Pow2(e));
    } else {
      PowGrows(f, e);
      PowPositive(f);
      Below(k, Pow2(f), Pow2(e));
    }
  }

  /** Between two neighbours the nearer one is taken, and no multiple is nearer. */
  lemma NearestMultiple(n: nat, u: nat, q: nat, r: nat, m: nat)
    requires n == q * u + r && r < u
    ensures (if r <= u - r then r else u - r) <= Gap(m * u, n)
  {
    if m <= q {
      Scale(m, q, u);
    } else {
      Scale(q + 1, m, u);
    }
  }

  lemma {:induction false} DoubleIsNearest(n: nat, v: nat)
    requires IsDouble(v)
    ensures Gap(Double(n), n) <= Gap(v, n)
  {
    var e := UlpShape(n);
    var u := Ulp(n);
    var q, r := n / u, n % u;
    Divided(n, u, q, r);
    var m := Grid(v, e);
    hide Ulp, Pow2;
    if v == m * u {
      NearestMultiple(n, u, q, r, m);
    } else {
      QuotientRange(n, u, q, r, e);
      Scale(TWO_52, q, u);
    }
  }

  lemma {:induction false} DoubleIsDouble(n: nat)
    ensures IsDouble(Double(n))
  {
    var e := UlpShape(n);
    var u := Ulp(n);
    var q, r := n / u, n % u;
    hide Ulp, Pow2;
    Divided(n, u, q, r);
    QuotientRange(n, u, q, r, e);
    if Double(n) == q * u {
      assert Parts(Double(n), q, e);
    } else if q + 1 < TWO_53 {
      assert Parts(Double(n), q + 1, e);
    } else {
      PowStep(e);
      assert Parts(Double(n), TWO_52, e + 1);
    }
  }

  /** Of two multiples of `u` equally near to `n`, neither of them `n`, one is just below and one just above. */
  lemma TieMultiples(n: nat, u: nat, q: nat, r: nat, m: nat, d: nat)
    requires n == q * u + r && r < u && (d == q * u || d == (q + 1) * u)
    requires Gap(d, n) <= r && Gap(d, n) <= u - r && m * u != d && Gap(m * u, n) == Gap(d, n)
    ensures 2 * r == u && Gap(d, m * u) == u
  {
    if m < q {
      Scale(m + 1, q, u);
    } else if m > q + 1 {
      Scale(q + 2, m, u);
    }
  }

  /** The even one of `q` and its successor is twice a number. */
  lemma EvenMultiple(u: nat, q: nat) returns (k: nat)
    ensures (if q % 2 == 1 then q + 1 else q) * u == k * (2 * u)
  {
    k := (q + 1) / 2;
    assert (if q % 2 == 1 then q + 1 else q) == 2 * k;
    Doubling(k, u);
  }

  lemma Doubling(k: nat, u: nat)
    ensures (2 * k) * u == k * (2 * u)
  {
  }

  /** What is below every double around `n` is not as near as what is taken. */
  lemma TooFar(n: nat, u: nat, q: nat, r: nat, v: nat, d: nat)
    requires n == q * u + r && TWO_52 <= q && v < TWO_52 * u && Gap(d, n) <= r
    ensures Gap(d, n) < Gap(v, n)
  {
    Scale(TWO_52, q, u);
  }

  /** Another double as near is the other neighbour, and the one taken is the even one. */
  lemma OtherNeighbour(n: nat, v: nat) returns (u: nat, q: nat)
    requires IsDouble(v) && v != Double(n) && Gap(v, n) == Gap(Double(n), n)
    ensures Double(n) == (if q % 2 == 1 then q + 1 else q) * u && Gap(Double(n), v) == u
  {
    var e := UlpShape(n);
    u := Ulp(n);
    var r := n % u;
    q := n / u;
    Quotient(n, u, q, r);
    var m := Grid(v, e);
    hide Ulp, Pow2, Double;
    var d := Double(n);
    if v != m * u {
      QuotientRange(n, u, q, r, e);
      TooFar(n, u, q, r, v, d);
    }
    TieMultiples(n, u, q, r, m, d);
  }

  /** Rounding between `p` and the next multiple. */
  lemma RoundGap(n: nat, p: nat, u: nat, q: nat, r: nat, d: nat)
    requires n == p + r && r < u
    requires d == if 2 * r > u || (2 * r == u && q % 2 == 1) then p + u else p
    ensures Gap(d, n) <= r && Gap(d, n) <= u - r
    ensures 2 * r == u ==> d == if q % 2 == 1 then p + u else p
  {
  }

  lemma Rounding(n: nat, u: nat, q: nat, r: nat)
    requires u == Ulp(n) && q == n / u && r == n % u
    ensures Double(n) == if 2 * r > u || (2 * r == u && q % 2 == 1) then (q + 1) * u else q * u
  {
    hide Ulp;
  }

  lemma Split(n: nat, u: nat, q: nat, r: nat)
    requires u == Ulp(n) && q == n / u && r == n % u
    ensures n == q * u + r && r < u && (q + 1) * u == q * u + u
    ensures Double(n) == if 2 * r > u || (2 * r == u && q % 2 == 1) then (q + 1) * u else q * u
  {
    Rounding(n, u, q, r);
    hide Ulp, Double;
    Divided(n, u, q, r);
  }

  /** How many spacings there are below `n`, and which multiple is taken. */
  lemma Quotient(n: nat, u: nat, q: nat, r: nat)
    requires u == Ulp(n) && q == n / u && r == n % u
    ensures n == q * u + r && r < u
    ensures var d := Double(n);
      && (d == q * u || d == (q + 1) * u) && Gap(d, n) <= r && Gap(d, n) <= u - r
      && (2 * r == u ==> d == (if q % 2 == 1 then q + 1 else q) * u)
  {
    hide Ulp, Double, Gap;
    Split(n, u, q, r);
    RoundGap(n, q * u, u, q, r, Double(n));
  }

  /** When another double is as near, the one taken is an even multiple of the distance between the two. */
  lemma {:induction false} TieIsEven(n: nat, v: nat) returns (k: nat)
    requires IsDouble(v) && v != Double(n) && Gap(v, n) == Gap(Double(n), n)
    ensures Double(n) == k * (2 * Gap(Double(n), v))
  {
    hide Double, IsDouble, Gap;
    var u, q := OtherNeighbour(n, v);
    k := EvenMultiple(u, q);
  }
}
