/** Single bits of machine words: what shifting, masking and combining does to each of them. */
module Bits {
  import opened MemoryMap
  import opened Cpu

  /** Bit `i` of `x` is set. */
  predicate On(x: nat, i: nat) { if i == 0 then x % 2 == 1 else On(x / 2, i - 1) }

  lemma DivideTwice(x: nat, q: nat)
    requires q > 0
    ensures x / (2 * q) == x / 2 / q
  {
    var h := x / 2;
    var k, r := h / q, h % q;
    assert x == 2 * h + x % 2 && h == k * q + r;
    Quotient(x, 2 * q, k, 2 * r + x % 2);
  }

  lemma Quotient(x: int, p: nat, q: int, r: int)
    requires p > 0 && x == q * p + r && 0 <= r < p
    ensures x / p == q && x % p == r
  {
    Between(x / p - q, p, r - x % p);
  }

  lemma Between(d: int, p: int, e: int)
    requires d * p == e && 0 - p < e < p
    ensures d == 0
  {
  }

  lemma DivideFits(x: nat, p: nat)
    requires p > 0
    ensures 0 <= x / p <= x
  {
    var q, r := x / p, x % p;
    assert x == q * p + r;
    Scaled(q, p);
  }

  lemma Scaled(q: int, p: int)
    requires p > 0
    ensures q >= 0 ==> q * p >= q
    ensures q < 0 ==> q * p <= 0 - p
  {
  }

  lemma {:induction false} OnDivided(x: nat, n: nat, j: nat)
    ensures Pow2(n) > 0 && x / Pow2(n) >= 0 && On(x / Pow2(n), j) == On(x, j + n)
    decreases n
  {
    Pow2Positive(n);
    DivideFits(x, Pow2(n));
    if n > 0 {
      Pow2Positive(n - 1);
      DivideTwice(x, Pow2(n - 1));
      OnDivided(x / 2, n - 1, j);
    }
  }

  /** `On` is the binary digit of weight 2^i. */
  lemma OnIsDigit(x: nat, i: nat)
    ensures Pow2(i) > 0 && On(x, i) == (x / Pow2(i) % 2 == 1)
  {
    OnDivided(x, i, 0);
  }

  lemma {:induction false} OnTimes(x: nat, n: nat, j: nat)
    ensures On(x * Pow2(n), j) <==> j >= n && On(x, j - n)
    decreases n
  {
    if n > 0 {
      var y := x * Pow2(n - 1);
      assert x * Pow2(n) == 2 * y;
      if j > 0 {
        assert 2 * y / 2 == y;
        OnTimes(x, n - 1, j - 1);
      }
    }
  }

  lemma ModHalf(x: nat, q: nat)
    requires q > 0
    ensures x % (2 * q) % 2 == x % 2 && x % (2 * q) / 2 == x / 2 % q
  {
    var h := x / 2;
    var k, r := h / q, h % q;
    assert x == 2 * h + x % 2 && h == k * q + r;
    Quotient(x, 2 * q, k, 2 * r + x % 2);
  }

  lemma {:induction false} OnLow(x: nat, n: nat, j: nat)
    requires j < n
    ensures Pow2(n) > 0 && On(x % Pow2(n), j) == On(x, j)
    decreases n
  {
    Pow2Positive(n);
    Pow2Positive(n - 1);
    ModHalf(x, Pow2(n - 1));
    if j > 0 { OnLow(x / 2, n - 1, j - 1); }
  }

  lemma {:induction false} OnHigh(x: nat, n: nat, j: nat)
    requires x < Pow2(n) && j >= n
    ensures !On(x, j)
    decreases j
  {
    if j > 0 && n > 0 { OnHigh(x / 2, n - 1, j - 1); } else if j > 0 { OnHigh(0, 0, j - 1); }
  }

  lemma {:induction false} OnBitwise(f: (bool, bool) -> bool, x: nat, y: nat, n: nat, j: nat)
    requires j < n
    ensures On(Bitwise(f, x, y, n), j) == f(On(x, j), On(y, j))
    decreases n
  {
    if j > 0 {
      assert Bitwise(f, x, y, n) / 2 == Bitwise(f, x / 2, y / 2, n - 1);
      OnBitwise(f, x / 2, y / 2, n - 1, j - 1);
    }
  }

  /** A word is determined by its bits. */
  lemma {:induction false} SameBits(x: nat, y: nat, n: nat)
    requires x < Pow2(n) && y < Pow2(n) && forall j: nat :: j < n ==> On(x, j) == On(y, j)
    ensures x == y
    decreases n
  {
    if n > 0 {
      assert On(x, 0) == On(y, 0);
      forall j: nat | j < n - 1
        ensures On(x / 2, j) == On(y / 2, j)
      {
        assert On(x, j + 1) == On(y, j + 1);
      }
      SameBits(x / 2, y / 2, n - 1);
    }
  }

  lemma {:induction false} OnComplement(x: nat, n: nat, j: nat)
    requires j < n && x < Pow2(n)
    ensures On(Pow2(n) - 1 - x, j) == !On(x, j)
    decreases n
  {
    ComplementHalf(x, Pow2(n - 1));
    if j > 0 { OnComplement(x / 2, n - 1, j - 1); }
  }

  lemma ComplementHalf(x: int, p: int)
    ensures (2 * p - 1 - x) / 2 == p - 1 - x / 2 && (2 * p - 1 - x) % 2 == 1 - x % 2
  {
  }

  lemma OnNot(x: u32, j: nat)
    requires j < 32
    ensures On(Not(x), j) == !On(x, j)
  {
    Pow2Of32();
    OnComplement(x, 32, j);
  }

  lemma OnTop(x: u32)
    ensures On(x, 31) <==> x >= 0x8000_0000
  {
    Pow2Of32();
    OnIsDigit(x, 31);
  }

  lemma BitIsOn(x: nat, i: nat)
    ensures Bit(x, i) == On(x, i)
  {
    assert Pow2(1) == 2;
    OnIsDigit(x, i);
  }

  // ---- Shifts and rotations ----

  /** A left shift by `n` moves bit j - n to j. */
  lemma OnLeft(a: u32, n: nat, j: nat)
    requires j < 32
    ensures On(Mod32(a * Pow2(n)), j) <==> j >= n && On(a, j - n)
  {
    Pow2Of32();
    Pow2Positive(n);
    OnTimes(a, n, j);
    OnLow(a * Pow2(n), 32, j);
  }

  lemma RightFits(a: u32, n: nat)
    ensures Pow2(n) > 0 && 0 <= a / Pow2(n) <= a && Mod32(a / Pow2(n)) == a / Pow2(n)
  {
    Pow2Positive(n);
    DivideFits(a, Pow2(n));
  }

  lemma OnRight(a: u32, n: nat, j: nat)
    ensures Pow2(n) > 0 && (On(Mod32(a / Pow2(n)), j) <==> j + n < 32 && On(a, j + n))
  {
    RightFits(a, n);
    OnDivided(a, n, j);
    Pow2Of32();
    if j + n >= 32 { OnHigh(a, 32, j + n); }
  }

  lemma RoundDown(b: nat, p: nat)
    requires p > 0
    ensures (-1 - b) / p == -1 - b / p
  {
    var q: int, r: int := b / p, b % p;
    assert b == q * p + r;
    Quotient(-1 - b, p, -1 - q, p - 1 - r);
  }

  /** Rounding down a negative number is complementing the shifted complement. */
  lemma NegativeShift(a: u32, n: nat)
    requires Negative(a)
    ensures Pow2(n) > 0 && Mod32(Signed(a) / Pow2(n)) == Not(Mod32(Not(a) / Pow2(n)))
  {
    RightFits(Not(a), n);
    RoundDown(Not(a), Pow2(n));
    Remainder(-1 - Not(a) / Pow2(n), -1, Not(Not(a) / Pow2(n)));
  }

  lemma OnSignedRight(a: u32, n: nat, j: nat)
    requires j < 32
    ensures Pow2(n) > 0 && (On(Mod32(Signed(a) / Pow2(n)), j) <==> On(a, if j + n < 32 then j + n else 31))
  {
    OnTop(a);
    if Negative(a) {
      NegativeShift(a, n);
      OnNot(Mod32(Not(a) / Pow2(n)), j);
      OnRight(Not(a), n, j);
      if j + n < 32 { OnNot(a, j + n); }
    } else {
      OnRight(a, n, j);
    }
  }

  lemma OnOr(x: u32, y: u32, j: nat)
    requires j < 32
    ensures On(Or(x, y), j) <==> On(x, j) || On(y, j)
  {
    OnBitwise((p, q) => p || q, x, y, 32, j);
  }

  lemma OnAnd(x: u32, y: u32, j: nat)
    requires j < 32
    ensures On(And(x, y), j) <==> On(x, j) && On(y, j)
  {
    OnBitwise((p, q) => p && q, x, y, 32, j);
  }

  lemma OnXor(x: u32, y: u32, j: nat)
    requires j < 32
    ensures On(Xor(x, y), j) <==> On(x, j) != On(y, j)
  {
    OnBitwise((p, q) => p != q, x, y, 32, j);
  }
}
