/** The slot of a work request: a 64-bit mixer of its key, with the bit operations written out on naturals. */
module Mixer {

  const U64: nat := 0x1_0000_0000_0000_0000
  const TABLE_SIZE: nat := 1024

  function Xor(a: nat, b: nat): nat
    decreases a
  {
    if a == 0 then b else if b == 0 then a else 2 * Xor(a / 2, b / 2) + (a + b) % 2
  }

  /** Bit `i` of a number. */
  ghost function Bit(n: nat, i: nat): nat {
    if i == 0 then n % 2 else Bit(n / 2, i - 1)
  }

  lemma Doubled(x: nat, r: nat)
    requires r < 2
    ensures (2 * x + r) / 2 == x && (2 * x + r) % 2 == r
  {
  }

  lemma ParityOfSum(a: nat, b: nat)
    ensures (a + b) % 2 == (a % 2 + b % 2) % 2
  {
  }

  lemma XorHalves(a: nat, b: nat)
    ensures Xor(a, b) / 2 == Xor(a / 2, b / 2) && Xor(a, b) % 2 == (a % 2 + b % 2) % 2
  {
    if a != 0 && b != 0 {
      Doubled(Xor(a / 2, b / 2), (a + b) % 2);
      ParityOfSum(a, b);
    } else {
      XorZero(a / 2);
      XorZero(b / 2);
    }
  }

  lemma XorZero(a: nat)
    ensures Xor(0, a) == a && Xor(a, 0) == a
  {
  }

  /** Exclusive-or is bitwise. */
  lemma {:induction false} XorIsBitwise(a: nat, b: nat, i: nat)
    ensures Bit(Xor(a, b), i) == (Bit(a, i) + Bit(b, i)) % 2
    decreases i
  {
    XorHalves(a, b);
    if i > 0 {
      XorIsBitwise(a / 2, b / 2, i - 1);
      NextBit(a, b, Xor(a, b), Xor(a / 2, b / 2), i);
    }
  }

  lemma NextBit(a: nat, b: nat, x: nat, half: nat, i: nat)
    requires i > 0 && x / 2 == half && Bit(half, i - 1) == (Bit(a / 2, i - 1) + Bit(b / 2, i - 1)) % 2
    ensures Bit(x, i) == (Bit(a, i) + Bit(b, i)) % 2
  {
  }

  lemma {:induction false} BitIsBit(n: nat, i: nat)
    ensures Bit(n, i) < 2
    decreases i
  {
    if i > 0 {
      BitIsBit(n / 2, i - 1);
    }
  }

  lemma {:induction false} ZeroBits(i: nat)
    ensures Bit(0, i) == 0
  {
    if i > 0 {
      ZeroBits(i - 1);
    }
  }

  /** Numbers with the same bits are equal. */
  lemma {:induction false} SameBits(a: nat, b: nat)
    requires forall i: nat :: Bit(a, i) == Bit(b, i)
    ensures a == b
    decreases a + b
  {
    if a + b > 0 {
      forall i: nat ensures Bit(a / 2, i) == Bit(b / 2, i) {
        assert Bit(a, i + 1) == Bit(b, i + 1);
      }
      assert Bit(a, 0) == Bit(b, 0);
      SameBits(a / 2, b / 2);
    }
  }

  ghost function Two(k: nat): nat {
    if k == 0 then 1 else 2 * Two(k - 1)
  }

  lemma {:induction false} TwoPositive(k: nat)
    ensures Two(k) > 0
  {
    if k > 0 {
      TwoPositive(k - 1);
    }
  }

  lemma HalfOfQuotient(x: nat, d: nat, e: nat)
    requires d > 0 && e == 2 * d
    ensures x / e == x / 2 / d
  {
    var h := x / 2;
    var q, r := h / d, h % d;
    Divided(h, d);
    assert q * e == 2 * (q * d);
    QuotientIs(x, e, q, 2 * r + x % 2);
  }

  lemma Divided(x: nat, d: nat)
    requires d > 0
    ensures x == x / d * d + x % d && x % d < d
  {
  }

  lemma QuotientIs(x: nat, d: nat, q: nat, r: nat)
    requires d > 0 && r < d && x == q * d + r
    ensures x / d == q
  {
    var p := x / d;
    Divided(x, d);
    if p < q {
      Grows(p + 1, q, d);
      NextMultiple(p, d);
    } else if q < p {
      Grows(q + 1, p, d);
      NextMultiple(q, d);
    }
  }

  lemma NextMultiple(q: nat, d: nat)
    ensures (q + 1) * d == q * d + d
  {
  }

  lemma Grows(a: nat, b: nat, d: nat)
    requires a <= b
    ensures a * d <= b * d
  {
  }

  ghost function Shift(x: nat, k: nat): nat {
    if k == 0 then x else Shift(x / 2, k - 1)
  }

  lemma {:induction false} ShiftIsQuotient(x: nat, k: nat)
    ensures Two(k) > 0 && x / Two(k) == Shift(x, k)
    decreases k
  {
    TwoPositive(k);
    if k > 0 {
      ShiftIsQuotient(x / 2, k - 1);
      HalfOfQuotient(x, Two(k - 1), Two(k));
    }
  }

  /** A shift moves the bits. */
  lemma {:induction false} ShiftedBit(x: nat, k: nat, i: nat)
    ensures Bit(Shift(x, k), i) == Bit(x, i + k)
    decreases k
  {
    if k > 0 {
      ShiftedBit(x / 2, k - 1, i);
    }
  }

  lemma {:induction false} HighBits(x: nat, k: nat, i: nat)
    requires x < Two(k) && i >= k
    ensures Bit(x, i) == 0
    decreases k
  {
    if k == 0 {
      ZeroBits(i);
    } else {
      HighBits(x / 2, k - 1, i - 1);
    }
  }

  function Fold33(x: nat): nat {
    Xor(x, x / 0x2_0000_0000)
  }

  lemma Constants()
    ensures Two(33) == 0x2_0000_0000 && Two(64) == U64
  {
    assert Two(8) == 256;
    assert Two(16) == 0x1_0000;
    assert Two(24) == 0x100_0000;
    assert Two(32) == 0x1_0000_0000;
    assert Two(40) == 0x100_0000_0000;
    assert Two(48) == 0x1_0000_0000_0000;
    assert Two(56) == 0x100_0000_0000_0000;
  }

  lemma FoldBit(x: nat, i: nat)
    ensures Bit(Fold33(x), i) == (Bit(x, i) + Bit(x, i + 33)) % 2
  {
    Constants();
    XorIsBitwise(x, x / 0x2_0000_0000, i);
    ShiftIsQuotient(x, 33);
    ShiftedBit(x, 33, i);
  }

  /** On 64-bit numbers folding undoes itself. */
  lemma FoldTwice(x: nat)
    requires x < U64
    ensures Fold33(Fold33(x)) == x
  {
    Constants();
    FoldFolds(x);
    FoldFolds(Fold33(x));
    forall i: nat ensures Bit(Fold33(Fold33(x)), i) == Bit(x, i) {
      HighBit(x, i + 66);
      FoldTwiceBit(x, Fold33(x), Fold33(Fold33(x)), i);
    }
    SameBits(Fold33(Fold33(x)), x);
  }

  /** `y` is `x` folded, bit by bit. */
  ghost predicate Folds(x: nat, y: nat) {
    forall i: nat {:trigger Bit(y, i)} :: Bit(y, i) == (Bit(x, i) + Bit(x, i + 33)) % 2
  }

  lemma FoldFolds(x: nat)
    ensures Folds(x, Fold33(x))
  {
    forall i: nat ensures Bit(Fold33(x), i) == (Bit(x, i) + Bit(x, i + 33)) % 2 {
      FoldBit(x, i);
    }
  }

  lemma HighBit(x: nat, i: nat)
    requires x < U64 && i >= 64
    ensures Bit(x, i) == 0
  {
    Constants();
    HighBits(x, 64, i);
  }

  lemma FoldTwiceBit(x: nat, y: nat, z: nat, i: nat)
    requires Folds(x, y) && Folds(y, z) && Bit(x, i + 66) == 0
    ensures Bit(z, i) == Bit(x, i)
  {
    BitIsBit(x, i);
    BitIsBit(x, i + 33);
    FoldedBit(x, y, i);
    FoldedBit(x, y, i + 33);
    FoldedBit(y, z, i);
    Cancels(Bit(x, i), Bit(x, i + 33));
  }

  lemma FoldedBit(x: nat, y: nat, i: nat)
    requires Folds(x, y)
    ensures Bit(y, i) == (Bit(x, i) + Bit(x, i + 33)) % 2
  {
  }

  lemma Cancels(a: nat, b: nat)
    requires a < 2 && b < 2
    ensures ((a + b) % 2 + (b + 0) % 2) % 2 == a
  {
  }

  lemma {:induction false} XorSmall(a: nat, b: nat, k: nat)
    requires a < Two(k) && b < Two(k)
    ensures Xor(a, b) < Two(k)
    decreases k
  {
    if k > 0 {
      XorHalves(a, b);
      XorSmall(a / 2, b / 2, k - 1);
    }
  }

  lemma FoldSmall(x: nat)
    requires x < U64
    ensures Fold33(x) < U64
  {
    Constants();
    XorSmall(x, x / 0x2_0000_0000, 64);
  }

  /** One subtraction brings a sum of two 64-bit numbers back into range. */
  function Wrap(n: nat): nat {
    if n < U64 then n else n - U64
  }

  /** The 64-bit product, bit by bit. */
  function Product(a: nat, m: nat): (r: nat)
    requires m < U64
    ensures r < U64
    decreases a
  {
    if a == 0 then 0 else
      var doubled := Wrap(2 * Product(a / 2, m));
      if a % 2 == 1 then Wrap(doubled + m) else doubled
  }

  lemma Modulo(x: nat, q: nat, r: nat)
    requires x == q * U64 + r && r < U64
    ensures x % U64 == r
  {
  }

  lemma WrapsSum(x: nat, y: nat)
    requires y < U64
    ensures Wrap(x % U64 + y) == (x + y) % U64
  {
    var q, r := x / U64, x % U64;
    if r + y < U64 {
      Modulo(x + y, q, r + y);
    } else {
      Modulo(x + y, q + 1, r + y - U64);
    }
  }

  lemma WrapsDouble(x: nat)
    ensures Wrap(2 * (x % U64)) == 2 * x % U64
  {
    var q, r := x / U64, x % U64;
    if 2 * r < U64 {
      Modulo(2 * x, 2 * q, 2 * r);
    } else {
      Modulo(2 * x, 2 * q + 1, 2 * r - U64);
    }
  }

  /** It is the product modulo 2^64. */
  lemma {:induction false} ProductIsModular(a: nat, m: nat)
    requires m < U64
    ensures Product(a, m) == a * m % U64
    decreases a
  {
    if a == 0 {
      Zero(m);
    } else {
      ProductIsModular(a / 2, m);
      Halves(a, a / 2, a % 2, m);
      ProductStep(a, a / 2, m, (a / 2) * m, a * m);
    }
  }

  lemma Zero(m: nat)
    ensures 0 * m == 0
  {
  }

  lemma ProductStep(a: nat, q: nat, m: nat, half: nat, whole: nat)
    requires m < U64 && a > 0 && q == a / 2 && Product(q, m) == half % U64
    requires whole == 2 * half + if a % 2 == 1 then m else 0
    ensures Product(a, m) == whole % U64
  {
    StepModular(half, m, Product(q, m), a % 2 == 1);
  }

  /** One step of the product, once the multiplications are named. */
  lemma StepModular(half: nat, m: nat, low: nat, odd: bool)
    requires m < U64 && low == half % U64
    ensures (if odd then Wrap(Wrap(2 * low) + m) else Wrap(2 * low)) == (2 * half + if odd then m else 0) % U64
  {
    WrapsDouble(half);
    WrapsSum(2 * half, m);
  }

  lemma Halves(a: nat, q: nat, r: nat, m: nat)
    requires a == 2 * q + r && r < 2
    ensures a * m == 2 * (q * m) + if r == 1 then m else 0
  {
    Distributes(2 * q, r, m);
    Distributes(q, q, m);
  }

  lemma Distributes(x: nat, y: nat, m: nat)
    ensures (x + y) * m == x * m + y * m
  {
  }

  function Mix(x: nat): nat {
    Fold33(Product(Fold33(Product(Fold33(x), 0xff51_afd7_ed55_8ccd)), 0xc4ce_b9fe_1a85_ec53))
  }

  const FIRST: nat := 0xff51_afd7_ed55_8ccd
  const SECOND: nat := 0xc4ce_b9fe_1a85_ec53

  lemma Congruent(a: nat, b: nat)
    ensures (a % U64) * b % U64 == a * b % U64
  {
    var q, r := a / U64, a % U64;
    assert a == q * U64 + r;
    assert a * b == (q * b) * U64 + r * b;
    Modulo(a * b, q * b + r * b / U64, r * b % U64);
  }

  lemma WholePlus(x: nat, m: nat, inverse: nat, k: nat, a: nat, whole: nat)
    requires m * inverse == k * U64 + 1 && a == x * m && whole == x * k
    ensures a * inverse == whole * U64 + x
  {
    Associated(x, m, inverse);
    OneMore(x, k, m * inverse);
  }

  lemma NamedProduct(x: nat, m: nat, a: nat)
    requires m < U64 && a == x * m
    ensures Product(x, m) == a % U64
  {
    ProductIsModular(x, m);
  }

  lemma Associated(a: nat, b: nat, c: nat)
    ensures (a * b) * c == a * (b * c)
  {
  }

  lemma OneMore(x: nat, k: nat, n: nat)
    requires n == k * U64 + 1
    ensures x * n == (x * k) * U64 + x
  {
  }

  /** A multiplication by an odd number is undone by the multiplication by its inverse. */
  lemma ProductUndone(x: nat, m: nat, inverse: nat, k: nat)
    requires x < U64 && m < U64 && inverse < U64 && m * inverse == k * U64 + 1
    ensures Product(Product(x, m), inverse) == x
  {
    NatProduct(x, m);
    NatProduct(x, k);
    UndoneWith(x, m, inverse, k, x * m, x * k);
  }

  lemma NatProduct(x: nat, y: nat)
    ensures x * y >= 0
  {
  }

  lemma UndoneWith(x: nat, m: nat, inverse: nat, k: nat, a: nat, whole: nat)
    requires x < U64 && m < U64 && inverse < U64 && m * inverse == k * U64 + 1 && a == x * m && whole == x * k
    ensures Product(Product(x, m), inverse) == x
  {
    NamedProduct(x, m, a);
    WholePlus(x, m, inverse, k, a, whole);
    UndoneFrom(x, a, inverse, whole, Product(x, m));
  }

  lemma UndoneFrom(x: nat, a: nat, inverse: nat, whole: nat, p: nat)
    requires x < U64 && inverse < U64 && p == a % U64 && a * inverse == whole * U64 + x
    ensures Product(p, inverse) == x
  {
    ProductIsModular(p, inverse);
    Congruent(a, inverse);
    Modulo(a * inverse, whole, x);
  }

  lemma MultiplyInjective(x: nat, y: nat, m: nat, inverse: nat, k: nat)
    requires x < U64 && y < U64 && m < U64 && inverse < U64 && m * inverse == k * U64 + 1
    requires Product(x, m) == Product(y, m)
    ensures x == y
  {
    ProductUndone(x, m, inverse, k);
    ProductUndone(y, m, inverse, k);
  }

  lemma FoldInjective(x: nat, y: nat)
    requires x < U64 && y < U64 && Fold33(x) == Fold33(y)
    ensures x == y
  {
    FoldTwice(x);
    FoldTwice(y);
  }

  /** The mixer maps different 64-bit keys to different 64-bit numbers. */
  lemma MixInjective(x: nat, y: nat)
    requires x < U64 && y < U64 && Mix(x) == Mix(y)
    ensures x == y
  {
    var x1, y1 := Fold33(x), Fold33(y);
    FoldSmall(x);
    FoldSmall(y);
    var x2, y2 := Product(x1, FIRST), Product(y1, FIRST);
    var x3, y3 := Fold33(x2), Fold33(y2);
    FoldSmall(x2);
    FoldSmall(y2);
    FoldInjective(Product(x3, SECOND), Product(y3, SECOND));
    MultiplyInjective(x3, y3, SECOND, 0x9cb4_b2f8_1293_37db, 0x7878_e448_12b2_d581);
    FoldInjective(x2, y2);
    MultiplyInjective(x1, y1, FIRST, 0x4f74_430c_22a5_4005, 0x4f3e_2925_cb7c_5b4e);
    FoldInjective(x, y);
  }

  function Slot(key: nat): (s: nat)
    ensures s < TABLE_SIZE
  {
    Mix(key) % TABLE_SIZE
  }
}
