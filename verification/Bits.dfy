/** Unsigned machine arithmetic on natural numbers: bytes, bitwise operators defined
    bit by bit, shifts with an explicit word width, and the arithmetic they amount to. */
module Bits {

  type byte = x: int | 0 <= x < 256

  function Pow2(n: nat): (r: nat)
    ensures r >= 1
  {
    if n == 0 then 1 else 2 * Pow2(n - 1)
  }

  function BitAnd(a: nat, b: nat): nat {
    if a == 0 || b == 0 then 0
    else 2 * BitAnd(a / 2, b / 2) + (if a % 2 == 1 && b % 2 == 1 then 1 else 0)
  }

  function BitOr(a: nat, b: nat): nat {
    if a == 0 then b else if b == 0 then a
    else 2 * BitOr(a / 2, b / 2) + (if a % 2 == 1 || b % 2 == 1 then 1 else 0)
  }

  function BitXor(a: nat, b: nat): nat {
    if a == 0 then b else if b == 0 then a
    else 2 * BitXor(a / 2, b / 2) + (if a % 2 != b % 2 then 1 else 0)
  }

  // The value a w-bit word keeps of v.
  function Wrap(v: int, w: nat): nat { v % Pow2(w) }

  // v << i and v >> i on words of w bits, and the two's complement -v of a word.
  function ShiftLeft(v: nat, i: nat, w: nat): nat { Wrap(v * Pow2(i), w) }

  function ShiftRight(v: nat, i: nat): nat { Quotient(v, Pow2(i)) }

  function Quotient(v: nat, m: nat): nat
    requires m > 0
  {
    v / m
  }

  function Negate(v: nat, w: nat): nat
    requires v < Pow2(w)
  {
    if v == 0 then 0 else Pow2(w) - v
  }

  // The (intW_t) cast of a word; the cast of a signed value to a word is Wrap.
  function ToSigned(v: nat, w: nat): int
    requires w >= 1
  {
    if v < Pow2(w - 1) then v else v - Pow2(w)
  }

  predicate FitsSigned(v: int, w: nat)
    requires w >= 1
  {
    0 <= v + Pow2(w - 1) < Pow2(w)
  }

  // Values within one word's length of the word's range wrap at most once.
  lemma WrapOnce(v: int, w: nat)
    requires 0 <= v + Pow2(w) < 3 * Pow2(w)
    ensures Wrap(v, w) == if v < 0 then v + Pow2(w) else if v < Pow2(w) then v else v - Pow2(w)
  {
    var m := Pow2(w);
    if v < 0 {
      DivModUnique(v, -1, v + m, m);
    } else if v < m {
      SmallMod(v, m);
    } else {
      DivModUnique(v, 1, v - m, m);
    }
  }

  lemma SignedRoundTrip(v: int, w: nat)
    requires w >= 1 && FitsSigned(v, w)
    ensures ToSigned(Wrap(v, w), w) == v
  {
    WrapOnce(v, w);
  }

  lemma SmallMod(v: nat, m: nat)
    requires v < m
    ensures v % m == v && v / m == 0
  {
  }

  // v + k * m and v leave the same remainder.
  lemma ModAddMultiple(v: int, k: int, m: nat)
    requires m >= 1
    ensures (v + k * m) % m == v % m
    ensures (v + k * m) / m == v / m + k
  {
    var q, r := v / m, v % m;
    assert v == q * m + r;
    assert v + k * m == (q + k) * m + r by { assert (q + k) * m == q * m + k * m; }
    DivModUnique(v + k * m, q + k, r, m);
  }

  lemma DivModUnique(v: int, q: int, r: int, m: nat)
    requires m >= 1 && v == q * m + r && 0 <= r < m
    ensures v / m == q && v % m == r
  {
    var q', r' := v / m, v % m;
    assert v == q' * m + r';
    assert (q - q') * m == r' - r by { assert (q - q') * m == q * m - q' * m; }
    MulBound(q - q', m);
  }

  lemma MulBound(k: int, m: nat)
    ensures k >= 1 ==> k * m >= m
    ensures k <= -1 ==> k * m + m <= 0
  {
    if k >= 1 {
      assert k * m == (k - 1) * m + m;
    } else if k <= -1 {
      assert k * m + m == -((-k - 1) * m);
    }
  }

  lemma {:induction false} Pow2Adds(a: nat, b: nat)
    ensures Pow2(a + b) == Pow2(a) * Pow2(b)
  {
    if a == 0 {
    } else {
      Pow2Adds(a - 1, b);
      assert 2 * Pow2(a - 1) * Pow2(b) == Pow2(a) * Pow2(b);
    }
  }

  lemma Pow2Mono(a: nat, b: nat)
    requires a <= b
    ensures Pow2(a) <= Pow2(b)
  {
    Pow2Adds(a, b - a);
    MulBound(Pow2(b - a), Pow2(a));
  }

  // Masking with k ones keeps the low k bits.
  lemma {:induction false} AndMask(a: nat, k: nat)
    ensures BitAnd(a, Pow2(k) - 1) == a % Pow2(k)
  {
    if k == 0 {
      assert a % 1 == 0;
    } else if a == 0 {
      SmallMod(0, Pow2(k));
    } else {
      var m := Pow2(k - 1);
      AndMask(a / 2, k - 1);
      HalfOnes(m);
      HalveMod(a, m);
    }
  }

  lemma HalfOnes(m: nat)
    requires m >= 1
    ensures (2 * m - 1) / 2 == m - 1 && (2 * m - 1) % 2 == 1
  {
  }

  lemma HalveMod(a: nat, m: nat)
    requires m >= 1
    ensures a % (2 * m) == 2 * ((a / 2) % m) + a % 2
  {
    var h := a / 2;
    var q, r := h / m, h % m;
    assert h == q * m + r;
    assert a == 2 * h + a % 2;
    assert a == q * (2 * m) + (2 * r + a % 2) by { assert q * (2 * m) == 2 * (q * m); }
    DivModUnique(a, q, 2 * r + a % 2, 2 * m);
  }

  // Or with bits that all lie above the first operand is addition.
  lemma {:induction false} OrDisjoint(a: nat, b: nat, k: nat)
    requires a < Pow2(k)
    ensures BitOr(a, b * Pow2(k)) == a + b * Pow2(k)
  {
    if k == 0 {
    } else {
      var m := b * Pow2(k - 1);
      assert b * Pow2(k) == 2 * m;
      OrDisjoint(a / 2, b, k - 1);
      if a != 0 && m != 0 {
        assert (2 * m) / 2 == m && (2 * m) % 2 == 0;
      }
    }
  }

  lemma {:induction false} XorOnes(a: nat, k: nat)
    requires a < Pow2(k)
    ensures BitXor(a, Pow2(k) - 1) == Pow2(k) - 1 - a
  {
    if k == 0 {
    } else if a == 0 {
    } else {
      var m := Pow2(k - 1);
      assert (2 * m - 1) / 2 == m - 1 && (2 * m - 1) % 2 == 1;
      XorOnes(a / 2, k - 1);
    }
  }
}
