/** The bitwise operators of the source on unbounded naturals, and what masks do as arithmetic. */
module Bits {
  import opened Arith

  type Byte = n: nat | n < 0x100

  predicate IsAscii(s: string) { forall i :: 0 <= i < |s| ==> s[i] as int < 0x80 }

  /** The bytes of a literal. */
  function Ascii(s: string): (b: seq<Byte>)
    requires IsAscii(s)
    ensures |b| == |s| && forall i :: 0 <= i < |s| ==> b[i] == s[i] as int
  {
    seq(|s|, i requires 0 <= i < |s| => s[i] as int)
  }

  function Pow2(n: nat): (p: nat)
    ensures p >= 1
  {
    if n == 0 then 1 else 2 * Pow2(n - 1)
  }

  /** x & y */
  function And(x: nat, y: nat): nat {
    if x == 0 || y == 0 then 0
    else 2 * And(x / 2, y / 2) + (if x % 2 == 1 && y % 2 == 1 then 1 else 0)
  }

  /** x | y */
  function Or(x: nat, y: nat): nat {
    if x == 0 then y else if y == 0 then x
    else 2 * Or(x / 2, y / 2) + (if x % 2 == 1 || y % 2 == 1 then 1 else 0)
  }

  /** The bit of weight 2^j. */
  predicate Bit(x: nat, j: nat) {
    if j == 0 then x % 2 == 1 else Bit(x / 2, j - 1)
  }

  lemma AndHalves(x: nat, y: nat)
    ensures And(x, y) / 2 == And(x / 2, y / 2)
    ensures And(x, y) % 2 == 1 <==> x % 2 == 1 && y % 2 == 1
  {
  }

  lemma OrHalves(x: nat, y: nat)
    ensures Or(x, y) / 2 == Or(x / 2, y / 2)
    ensures Or(x, y) % 2 == 1 <==> x % 2 == 1 || y % 2 == 1
  {
  }

  lemma {:induction false} ModHalves(x: nat, n: nat)
    requires n > 0
    ensures x % Pow2(n) == 2 * ((x / 2) % Pow2(n - 1)) + x % 2
    ensures x / Pow2(n) == (x / 2) / Pow2(n - 1)
  {
    var p := Pow2(n - 1);
    var q, r := (x / 2) / p, (x / 2) % p;
    assert x == 2 * (q * p + r) + x % 2;
    assert q * (2 * p) == 2 * (q * p);
    DivModUnique(x, 2 * p, q, 2 * r + x % 2);
  }

  /** Masking with 2^n - 1 is the remainder. */
  lemma {:induction false} AndLowMask(x: nat, n: nat)
    ensures And(x, Pow2(n) - 1) == x % Pow2(n)
    decreases n
  {
    if n == 0 {
    } else if x == 0 {
      DivModUnique(0, Pow2(n), 0, 0);
    } else {
      ModHalves(x, n);
      AndLowMask(x / 2, n - 1);
      var m, p := Pow2(n) - 1, Pow2(n - 1);
      assert m == 2 * (p - 1) + 1 && m / 2 == p - 1;
      assert And(x, m) == 2 * And(x / 2, p - 1) + x % 2;
    }
  }

  /** Masking a w-bit number with its top w - n bits clears the low n bits. */
  lemma {:induction false} AndHighMask(x: nat, w: nat, n: nat)
    requires n <= w && x < Pow2(w)
    ensures Pow2(n) <= Pow2(w)
    ensures And(x, Pow2(w) - Pow2(n)) == x - x % Pow2(n)
    decreases n
  {
    Pow2Monotone(n, w);
    if n == 0 {
      AndLowMask(x, w);
      DivModUnique(x, Pow2(w), 0, x);
    } else {
      AndHighMask(x / 2, w - 1, n - 1);
      ModHalves(x, n);
      HalfMask(w, n);
      AndHalves(x, Pow2(w) - Pow2(n));
    }
  }

  lemma HalfMask(w: nat, n: nat)
    requires 0 < n <= w && Pow2(n) <= Pow2(w)
    ensures (Pow2(w) - Pow2(n)) / 2 == Pow2(w - 1) - Pow2(n - 1) && (Pow2(w) - Pow2(n)) % 2 == 0
  {
  }

  lemma {:induction false} Pow2Monotone(n: nat, w: nat)
    requires n <= w
    ensures Pow2(n) <= Pow2(w)
  {
    if n < w { Pow2Monotone(n, w - 1); }
  }

  lemma {:induction false} Pow2Add(a: nat, b: nat)
    ensures Pow2(a + b) == Pow2(a) * Pow2(b)
  {
    if a > 0 {
      Pow2Add(a - 1, b);
      ShiftByOne(Pow2(b), a);
    }
  }

  lemma LowMaskHalves(n: nat)
    requires n > 0
    ensures (Pow2(n) - 1) / 2 == Pow2(n - 1) - 1 && (Pow2(n) - 1) % 2 == 1
  {
  }

  lemma OrOdd(x: nat, m: nat)
    requires m % 2 == 1
    ensures Or(x, m) == 2 * Or(x / 2, m / 2) + 1
  {
    OrHalves(x, m);
  }

  /** Setting the low n bits. */
  lemma {:induction false} OrLowMask(x: nat, n: nat)
    ensures Or(x, Pow2(n) - 1) == x - x % Pow2(n) + Pow2(n) - 1
    decreases n
  {
    if n > 0 {
      ModHalves(x, n);
      OrLowMask(x / 2, n - 1);
      LowMaskHalves(n);
      OrOdd(x, Pow2(n) - 1);
    } else {
      assert Or(x, 0) == x;
    }
  }

  lemma ShiftByOne(x: nat, n: nat)
    requires n > 0
    ensures x * Pow2(n) == 2 * (x * Pow2(n - 1))
  {
    assert x * (2 * Pow2(n - 1)) == 2 * (x * Pow2(n - 1));
  }

  lemma OrDouble(p: nat, y: nat)
    ensures Or(2 * p, y) == 2 * Or(p, y / 2) + y % 2
  {
    OrHalves(2 * p, y);
    assert 2 * p / 2 == p && 2 * p % 2 == 0;
  }

  /** (x << n) | y for a y below 2^n. */
  lemma {:induction false} OrDisjoint(x: nat, n: nat, y: nat)
    requires y < Pow2(n)
    ensures Or(x * Pow2(n), y) == x * Pow2(n) + y
    decreases n
  {
    if n == 0 {
      assert Or(x, 0) == x;
    } else {
      ShiftByOne(x, n);
      OrDisjoint(x, n - 1, y / 2);
      OrDouble(x * Pow2(n - 1), y);
    }
  }

  lemma {:induction false} BitOfAnd(x: nat, y: nat, j: nat)
    ensures Bit(And(x, y), j) == (Bit(x, j) && Bit(y, j))
    decreases j
  {
    AndHalves(x, y);
    if j > 0 { BitOfAnd(x / 2, y / 2, j - 1); }
  }

  lemma {:induction false} BitOfOr(x: nat, y: nat, j: nat)
    ensures Bit(Or(x, y), j) == (Bit(x, j) || Bit(y, j))
    decreases j
  {
    OrHalves(x, y);
    if j > 0 { BitOfOr(x / 2, y / 2, j - 1); }
  }

  lemma {:induction false} ZeroHasNoBit(j: nat)
    ensures !Bit(0, j)
  {
    if j > 0 { ZeroHasNoBit(j - 1); }
  }

  /** 1 << i has one bit. */
  lemma {:induction false} BitOfPow2(i: nat, j: nat)
    ensures Bit(Pow2(i), j) <==> i == j
    decreases j
  {
    if j > 0 && i > 0 {
      BitOfPow2(i - 1, j - 1);
    } else if j > 0 {
      ZeroHasNoBit(j - 1);
    }
  }

  lemma HalfComplement(x: nat, n: nat)
    requires 0 < n && x < Pow2(n)
    ensures x / 2 < Pow2(n - 1) && (Pow2(n) - 1 - x) / 2 == Pow2(n - 1) - 1 - x / 2
    ensures (Pow2(n) - 1 - x) % 2 == 1 <==> x % 2 == 0
  {
  }

  /** Complementing an n-bit number flips each of its bits. */
  lemma {:induction false} BitOfComplement(x: nat, n: nat, j: nat)
    requires j < n && x < Pow2(n)
    ensures Bit(Pow2(n) - 1 - x, j) == !Bit(x, j)
    decreases n
  {
    HalfComplement(x, n);
    if j > 0 { BitOfComplement(x / 2, n - 1, j - 1); }
  }

  lemma ShiftHalves(x: nat, n: nat, y: nat)
    requires n > 0 && y < Pow2(n)
    ensures (x * Pow2(n) + y) / 2 == x * Pow2(n - 1) + y / 2 && (x * Pow2(n) + y) % 2 == y % 2
    ensures y / 2 < Pow2(n - 1)
  {
    ShiftByOne(x, n);
    var p := x * Pow2(n - 1);
    assert x * Pow2(n) + y == 2 * p + y;
  }

  /** The bits of x * 2^n + y are those of y below n and those of x from there on. */
  lemma {:induction false} BitSplit(x: nat, n: nat, y: nat, j: nat)
    requires y < Pow2(n)
    ensures Bit(x * Pow2(n) + y, j) == if j < n then Bit(y, j) else Bit(x, j - n)
    decreases n
  {
    if n > 0 {
      ShiftHalves(x, n, y);
      if j > 0 { BitSplit(x, n - 1, y / 2, j - 1); }
    }
  }

  // ---------------------------------------------------------------- blocks of size 2^n

  /** x >> n */
  function ShiftRight(x: nat, n: nat): nat { if n == 0 then x else ShiftRight(x / 2, n - 1) }

  /** The low n bits set to zero, or to one. */
  function ClearLow(x: nat, n: nat): nat { if n == 0 then x else 2 * ClearLow(x / 2, n - 1) }
  function SetLow(x: nat, n: nat): nat { if n == 0 then x else 2 * SetLow(x / 2, n - 1) + 1 }

  lemma {:induction false} BitOfShift(x: nat, n: nat, j: nat)
    ensures Bit(ShiftRight(x, n), j) == Bit(x, j + n)
    decreases n
  {
    if n > 0 { BitOfShift(x / 2, n - 1, j); }
  }

  lemma {:induction false} BitOfClear(x: nat, n: nat, j: nat)
    ensures Bit(ClearLow(x, n), j) == (j >= n && Bit(x, j))
    decreases n
  {
    if n > 0 && j > 0 {
      BitOfClear(x / 2, n - 1, j - 1);
      assert ClearLow(x, n) / 2 == ClearLow(x / 2, n - 1);
    }
  }

  lemma {:induction false} BitOfSet(x: nat, n: nat, j: nat)
    ensures Bit(SetLow(x, n), j) == (j < n || Bit(x, j))
    decreases n
  {
    if n > 0 && j > 0 {
      BitOfSet(x / 2, n - 1, j - 1);
      assert SetLow(x, n) / 2 == SetLow(x / 2, n - 1);
    }
  }

  lemma {:induction false} ShiftFits(x: nat, n: nat, p: nat)
    requires x < Pow2(n + p)
    ensures ShiftRight(x, n) < Pow2(p)
    decreases n
  {
    if n > 0 { ShiftFits(x / 2, n - 1, p); }
  }

  lemma {:induction false} BlockFits(x: nat, n: nat, w: nat)
    requires n <= w && x < Pow2(w)
    ensures ClearLow(x, n) <= x <= SetLow(x, n) < Pow2(w)
    decreases n
  {
    if n > 0 { BlockFits(x / 2, n - 1, w - 1); }
  }

  /** A number lies between the cleared and the set one exactly when it differs in low bits only. */
  lemma {:induction false} InBlock(x: nat, n: nat, a: nat)
    ensures ClearLow(x, n) <= a <= SetLow(x, n) <==> ShiftRight(a, n) == ShiftRight(x, n)
    decreases n
  {
    if n > 0 { InBlock(x / 2, n - 1, a / 2); }
  }

  /** In arithmetic, the block is the multiple of 2^n below the number and the 2^n - 1 numbers after it. */
  lemma {:induction false} BlockIsArithmetic(x: nat, n: nat)
    ensures ClearLow(x, n) == x - x % Pow2(n) && SetLow(x, n) == x - x % Pow2(n) + Pow2(n) - 1
    decreases n
  {
    if n > 0 {
      BlockIsArithmetic(x / 2, n - 1);
      ModHalves(x, n);
    }
  }

  lemma {:induction false} SetAfterClear(x: nat, n: nat)
    ensures SetLow(ClearLow(x, n), n) == SetLow(x, n)
    decreases n
  {
    if n > 0 {
      SetAfterClear(x / 2, n - 1);
      assert ClearLow(x, n) / 2 == ClearLow(x / 2, n - 1);
    }
  }

  lemma {:induction false} WholeBlock(x: nat, n: nat)
    requires x < Pow2(n)
    ensures ClearLow(x, n) == 0 && SetLow(x, n) == Pow2(n) - 1
    decreases n
  {
    if n > 0 { WholeBlock(x / 2, n - 1); }
  }

  lemma AllOnes(n: nat, j: nat)
    requires j < n
    ensures Bit(Pow2(n) - 1, j)
  {
    ZeroHasNoBit(j);
    BitOfComplement(0, n, j);
  }

  // ---------------------------------------------------------------- extensionality

  /** Numbers below 2^n with the same bits are equal. */
  lemma {:induction false} SameBits(x: nat, y: nat, n: nat)
    requires x < Pow2(n) && y < Pow2(n) && forall j: nat :: j < n ==> Bit(x, j) == Bit(y, j)
    ensures x == y
    decreases n
  {
    if n > 0 {
      assert Bit(x, 0) == Bit(y, 0);
      forall j: nat | j < n - 1 ensures Bit(x / 2, j) == Bit(y / 2, j) {
        assert Bit(x, j + 1) == Bit(y, j + 1);
      }
      SameBits(x / 2, y / 2, n - 1);
    }
  }

  lemma {:induction false} AndShrinks(x: nat, y: nat)
    ensures And(x, y) <= x
    decreases x
  {
    if x != 0 && y != 0 { AndShrinks(x / 2, y / 2); }
  }

  lemma {:induction false} OrStays(x: nat, y: nat, n: nat)
    requires x < Pow2(n) && y < Pow2(n)
    ensures Or(x, y) < Pow2(n)
    decreases n
  {
    if n > 0 {
      OrStays(x / 2, y / 2, n - 1);
      OrHalves(x, y);
    }
  }

  lemma Pow2Double(n: nat, v: nat)
    requires Pow2(n) == v
    ensures Pow2(n + n) == v * v
  {
    Pow2Add(n, n);
  }

  /** The sizes of the machine words in the source. */
  lemma Pow2Words()
    ensures Pow2(8) == 0x100
    ensures Pow2(32) == 0x1_0000_0000
    ensures Pow2(64) == 0x1_0000_0000_0000_0000
  {
    assert Pow2(4) == 16;
    Pow2Double(4, 16);
    Pow2Double(8, 0x100);
    Pow2Double(16, 0x1_0000);
    Pow2Double(32, 0x1_0000_0000);
  }
}
