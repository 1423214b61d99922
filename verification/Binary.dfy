/** Powers of two, binary digits and the bitwise operators on naturals. */
module Binary {

  function Pow2(n: nat): (p: nat)
    ensures p > 0
  {
    if n == 0 then 1 else 2 * Pow2(n - 1)
  }

  lemma {:induction false} Pow2Add(a: nat, b: nat)
    ensures Pow2(a + b) == Pow2(a) * Pow2(b)
  {
    if a > 0 {
      Pow2Add(a - 1, b);
      TwiceProduct(Pow2(a - 1), Pow2(b));
    }
  }

  lemma TwiceProduct(p: nat, q: nat)
    ensures 2 * (p * q) == 2 * p * q
  {
  }

  lemma {:induction false} MulMono(a: nat, b: nat, d: nat)
    requires a <= b
    ensures a * d <= b * d
  {
    assert b * d == a * d + (b - a) * d;
  }

  lemma SameQuotient(q: nat, r: nat, q': nat, r': nat, d: nat)
    requires r < d && r' < d
    requires q * d + r == q' * d + r'
    ensures q == q' && r == r'
  {
    NotBelow(q, r, q', r', d);
    NotBelow(q', r', q, r, d);
  }

  lemma NotBelow(q: nat, r: nat, q': nat, r': nat, d: nat)
    requires r < d && r' < d
    requires q * d + r == q' * d + r'
    ensures q >= q'
  {
    assert (q + 1) * d == q * d + d;
    if q + 1 <= q' {
      MulMono(q + 1, q', d);
    }
  }

  lemma DivMod(n: nat, d: nat)
    requires d > 0
    ensures n / d * d + n % d == n
  {
  }

  lemma QuotientIs(n: nat, d: nat, q: nat, r: nat)
    requires r < d
    requires n == q * d + r
    ensures n / d == q && n % d == r
  {
    DivMod(n, d);
    SameQuotient(q, r, n / d, n % d, d);
  }

  lemma DivAddMultiple(n: nat, c: nat, d: nat)
    requires d > 0
    ensures (n + c * d) / d == n / d + c
  {
    var q, r := n / d, n % d;
    DivMod(n, d);
    assert (q + c) * d == q * d + c * d;
    QuotientIs(n + c * d, d, q + c, r);
  }

  lemma Regroup(q: nat, b: nat, r: nat, a: nat)
    ensures (q * b + r) * a == q * (a * b) + r * a
  {
  }

  lemma DigitFits(r': nat, b: nat, r: nat, a: nat)
    requires r' < b && r < a
    ensures r' * a + r < a * b
  {
    MulMono(r' + 1, b, a);
    assert (r' + 1) * a == r' * a + a;
  }

  lemma DivDiv(n: nat, a: nat, b: nat)
    requires a > 0 && b > 0
    ensures a * b > 0 && n / a / b == n / (a * b)
  {
    var q, r := n / a, n % a;
    var q', r' := q / b, q % b;
    DivMod(n, a);
    DivMod(q, b);
    Regroup(q', b, r', a);
    DigitFits(r', b, r, a);
    QuotientIs(n, a * b, q', r' * a + r);
  }

  lemma QuotientNat(n: nat, d: nat)
    requires d > 0
    ensures n / d >= 0
  {
  }

  /** n >> a */
  function Shr(n: nat, a: nat): (r: nat) {
    QuotientNat(n, Pow2(a));
    n / Pow2(a)
  }

  /** Shifting twice is shifting once by the sum. */
  lemma ShiftShift(n: nat, a: nat, b: nat)
    ensures Shr(Shr(n, a), b) == Shr(n, a + b)
  {
    Pow2Add(a, b);
    DivDiv(n, Pow2(a), Pow2(b));
  }

  /** A further digit c below 2^w keeps a number within its width. */
  lemma DigitOnTop(n: nat, c: nat, m: nat, w: nat)
    requires n < Pow2(m) && c < Pow2(w)
    ensures 0 <= n + c * Pow2(m) < Pow2(m + w)
  {
    Pow2Add(w, m);
    MulMono(c + 1, Pow2(w), Pow2(m));
    assert (c + 1) * Pow2(m) == c * Pow2(m) + Pow2(m);
  }

  /** Bit k of n. */
  function Bit(n: nat, k: nat): (b: nat)
    ensures b < 2
  {
    Shr(n, k) % 2
  }

  /** c * 2^m as an even multiple of 2^k, k < m. */
  lemma ShiftedIsEven(c: nat, m: nat, k: nat)
    requires k < m
    ensures c * Pow2(m) == c * Pow2(m - k - 1) * 2 * Pow2(k)
  {
    var e := Pow2(m - k - 1);
    Pow2Add(m - k, k);
    assert Pow2(m - k) == 2 * e;
    Reorder(c, e, Pow2(k));
  }

  lemma {:induction false} Reorder(c: nat, e: nat, p: nat)
    ensures c * (2 * e * p) == c * e * 2 * p
  {
    assert 2 * e * p == 2 * (e * p);
    assert c * e * 2 * p == c * e * (2 * p);
    assert c * e * (2 * p) == c * (e * (2 * p));
    assert e * (2 * p) == 2 * (e * p);
  }

  lemma LowBitOfSum(n: nat, c: nat, m: nat, k: nat)
    requires k < m
    ensures Bit(n + c * Pow2(m), k) == Bit(n, k)
  {
    var d := c * Pow2(m - k - 1);
    ShiftedIsEven(c, m, k);
    DivAddMultiple(n, d * 2, Pow2(k));
    EvenAddition(Shr(n, k), d);
  }

  /** Adding c * 2^m changes no bit below m and only c's bits above. */
  lemma BitOfSum(n: nat, c: nat, m: nat, k: nat)
    requires n < Pow2(m)
    ensures Bit(n + c * Pow2(m), k) == if k < m then Bit(n, k) else Bit(c, k - m)
  {
    if k < m {
      LowBitOfSum(n, c, m, k);
    } else {
      ShiftShift(n + c * Pow2(m), m, k - m);
      DivAddMultiple(n, c, Pow2(m));
      QuotientIs(n, Pow2(m), 0, n);
    }
  }

  lemma EvenAddition(n: nat, c: nat)
    ensures (n + c * 2) % 2 == n % 2
  {
  }

  lemma {:induction false} BitZero(k: nat)
    ensures Bit(0, k) == 0
  {
    QuotientIs(0, Pow2(k), 0, 0);
  }

  /** Bit 0 and the rest. */
  lemma BitNext(n: nat, k: nat)
    requires k > 0
    ensures Bit(n, k) == Bit(n / 2, k - 1)
  {
    ShiftShift(n, 1, k - 1);
  }

  /** A number is its bits. */
  lemma {:induction false} SameBits(a: nat, b: nat, m: nat)
    requires a < Pow2(m) && b < Pow2(m)
    requires forall k: nat :: k < m ==> Bit(a, k) == Bit(b, k)
    ensures a == b
  {
    if m > 0 {
      hide Bit;
      forall k: nat | k < m - 1 ensures Bit(a / 2, k) == Bit(b / 2, k) {
        BitNext(a, k + 1);
        BitNext(b, k + 1);
      }
      SameBits(a / 2, b / 2, m - 1);
      LowBit(a);
      LowBit(b);
    }
  }

  lemma LowBit(a: nat)
    ensures Bit(a, 0) == a % 2
  {
  }

  // ---------------------------------------------------------------- | and &

  /** x | y */
  function Or(x: nat, y: nat): nat {
    if x == 0 && y == 0 then 0
    else (if x % 2 == 1 || y % 2 == 1 then 1 else 0) + 2 * Or(x / 2, y / 2)
  }

  /** x & y */
  function And(x: nat, y: nat): nat {
    if x == 0 || y == 0 then 0
    else (if x % 2 == 1 && y % 2 == 1 then 1 else 0) + 2 * And(x / 2, y / 2)
  }

  lemma {:induction false} OrZero(y: nat)
    ensures Or(0, y) == y
  {
    if y != 0 {
      OrZero(y / 2);
    }
  }

  lemma {:induction false} OrEven(x: nat, h: nat)
    ensures Or(x, 2 * h) == x % 2 + 2 * Or(x / 2, h)
  {
    assert 2 * h / 2 == h && 2 * h % 2 == 0;
    if x == 0 && h == 0 { assert Or(0, 0) == 0; }
  }

  /** Or-ing a number shifted past the low bits adds it. */
  lemma {:induction false} OrIsSum(x: nat, c: nat, m: nat)
    requires x < Pow2(m)
    ensures Or(x, c * Pow2(m)) == x + c * Pow2(m)
  {
    if m == 0 {
      OrZero(c);
    } else {
      var h := c * Pow2(m - 1);
      assert c * Pow2(m) == 2 * h by { Reorder(c, Pow2(m - 1), 1); }
      OrEven(x, h);
      OrIsSum(x / 2, c, m - 1);
    }
  }

  lemma {:induction false} AndOdd(x: nat, h: nat)
    ensures And(x, 2 * h + 1) == x % 2 + 2 * And(x / 2, h)
  {
    assert (2 * h + 1) / 2 == h && (2 * h + 1) % 2 == 1;
    if x == 0 { assert And(0, h) == 0; }
  }

  /** Masking with 2^m - 1 keeps the low m bits. */
  lemma {:induction false} AndMask(x: nat, m: nat)
    ensures And(x, Pow2(m) - 1) == x % Pow2(m)
  {
    hide And;
    if m == 0 {
      MaskNone(x);
    } else {
      var p := Pow2(m - 1);
      assert Pow2(m) == 2 * p;
      hide Pow2;
      AndOdd(x, p - 1);
      AndMask(x / 2, m - 1);
      ModTwice(x, p);
    }
  }

  lemma MaskNone(x: nat)
    ensures And(x, 0) == 0 && x % 1 == 0
  {
  }

  lemma ModTwice(x: nat, p: nat)
    requires p > 0
    ensures x % (2 * p) == x % 2 + 2 * (x / 2 % p)
  {
    var q, r := x / 2 / p, x / 2 % p;
    DivMod(x / 2, p);
    Twice(q, p);
    QuotientIs(x, 2 * p, q, 2 * r + x % 2);
  }

  lemma Twice(q: nat, p: nat)
    ensures q * (2 * p) == 2 * (q * p)
  {
  }

  /** x &^ y */
  function AndNot(x: nat, y: nat): nat {
    if x == 0 then 0
    else (if x % 2 == 1 && y % 2 == 0 then 1 else 0) + 2 * AndNot(x / 2, y / 2)
  }

  lemma {:induction false} AndNotIs(x: nat, y: nat)
    ensures AndNot(x, y) == x - And(x, y)
  {
    if x != 0 {
      AndNotIs(x / 2, y / 2);
      AndStep(x, y);
    }
  }

  lemma {:induction false} AndStep(x: nat, y: nat)
    ensures And(x, y) == (if x % 2 == 1 && y % 2 == 1 then 1 else 0) + 2 * And(x / 2, y / 2)
  {
    if x == 0 { assert And(x / 2, y / 2) == 0; }
    if y == 0 { assert And(x / 2, y / 2) == 0; }
  }
}
