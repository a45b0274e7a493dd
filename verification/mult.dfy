/** machine/mipssim.cc, Mult: the 64-bit product of two registers, by shifting and adding 32-bit words. */
module Multiplication {
  import opened Words

  const WORD := 0x1_0000_0000

  newtype word = x: int | 0 <= x < 0x1_0000_0000

  // ----- Operators of `unsigned int` -----

  function Plus(x: word, y: word): word {
    ((x as int + y as int) % WORD) as word
  }

  function Complement(x: word): word {
    0xFFFF_FFFF - x
  }

  function Doubled(x: word): word {
    ((2 * x as int) % WORD) as word
  }

  predicate TopBit(x: word) {
    x >= 0x8000_0000
  }

  /** `-a`: the most negative int is its own negative. */
  function Negated(a: int32): int32 {
    if a == -0x8000_0000 then a else -a
  }

  /** A double word, unsigned and signed. */
  function Double(hi: word, lo: word): (n: nat)
    ensures n < WORD * WORD
  {
    hi as int * 0x1_0000_0000 + lo as int
  }

  function SignedDouble(hi: int32, lo: int32): int {
    hi as int * 0x1_0000_0000 + Unsigned(lo)
  }

  // ----- The double-word operations of the loop -----

  /** A sum that has wrapped around is less than either summand. */
  lemma Carry(x: word, y: word)
    ensures Plus(x, y) as int == if x as int + y as int < WORD then x as int + y as int else x as int + y as int - WORD
    ensures Plus(x, y) < y <==> x as int + y as int >= WORD
  {
  }

  /** Add the second double word to the first, with the carry between the words. */
  method AddDouble(hi0: word, lo0: word, bHi: word, bLo: word) returns (hi: word, lo: word)
    requires Double(hi0, lo0) + Double(bHi, bLo) < WORD * WORD
    ensures Double(hi, lo) == Double(hi0, lo0) + Double(bHi, bLo)
  {
    hide Plus;
    Carry(lo0, bLo);
    hi := hi0;
    lo := Plus(lo0, bLo);
    if lo < bLo {
      Carry(hi, 1);
      hi := Plus(hi, 1);
    }
    Carry(hi, bHi);
    hi := Plus(hi, bHi);
  }

  method ShiftDouble(bHi0: word, bLo0: word) returns (bHi: word, bLo: word)
    requires 2 * Double(bHi0, bLo0) < WORD * WORD
    ensures Double(bHi, bLo) == 2 * Double(bHi0, bLo0)
  {
    bHi := Doubled(bHi0);
    if TopBit(bLo0) {
      bHi := bHi + 1;
    }
    bLo := Doubled(bLo0);
  }

  /** The two's complement of a double word. */
  method NegateDouble(hi0: word, lo0: word) returns (hi: word, lo: word)
    ensures Double(hi, lo) == if Double(hi0, lo0) == 0 then 0 else WORD * WORD - Double(hi0, lo0)
  {
    hi := Complement(hi0);
    lo := Plus(Complement(lo0), 1);
    if lo == 0 {
      hi := Plus(hi, 1);
    }
  }

  // ----- The loop -----

  function Power(i: nat): (p: nat)
    ensures p > 0
  {
    if i == 0 then 1 else 2 * Power(i - 1)
  }

  lemma Power32()
    ensures Power(32) == 0x1_0000_0000
  {
    assert Power(8) == 256;
    assert Power(16) == 256 * Power(8);
    assert Power(24) == 256 * Power(16);
    assert Power(32) == 256 * Power(24);
  }

  /**
   After i rounds: p is 2^i, `done` is the low i bits of the multiplier m and `rest` the others. a has
   been shifted right arithmetically, so if it is negative its i high bits are ones too many.
   */
  ghost predicate Progress(m: nat, i: nat, p: nat, done: nat, rest: nat, a: int32) {
    && i <= 32 && p == Power(i)
    && m == rest * p + done && done < p
    && (a as int == rest || (a < 0 && a as int == rest - Power(32 - i)))
  }

  lemma SameLowBit(m: nat, i: nat, p: nat, done: nat, rest: nat, a: int32)
    requires i < 32 && Progress(m, i, p, done, rest, a)
    ensures a as int % 2 == rest % 2
  {
    assert Power(32 - i) == 2 * Power(31 - i);
  }

  /** The next bit goes from `rest` to `done`. */
  lemma NextBit(m: nat, i: nat, p: nat, done: nat, rest: nat, a: int32)
    requires i < 32 && Progress(m, i, p, done, rest, a)
    ensures Progress(m, i + 1, 2 * p, done + (rest % 2) * p, rest / 2, (a as int / 2) as int32)
  {
    SameLowBit(m, i, p, done, rest, a);
    var half := rest / 2;
    assert rest == 2 * half + rest % 2;
    Distribute(half, rest % 2, p);
    assert Power(32 - i) == 2 * Power(31 - i);
  }

  lemma Distribute(half: nat, bit: nat, p: nat)
    requires bit < 2
    ensures (2 * half + bit) * p == half * (2 * p) + bit * p
    ensures bit * p == if bit == 1 then p else 0
  {
  }

  lemma NothingLeft(m: nat, p: nat, done: nat, rest: nat, a: int32)
    requires Progress(m, 32, p, done, rest, a) && m < WORD
    ensures done == m
  {
    Power32();
    if rest > 0 {
      Monotone(1, rest, p);
    }
  }

  lemma Monotone(x: nat, y: nat, z: nat)
    requires x <= y
    ensures x * z <= y * z
  {
  }

  lemma ProductFits(m: nat, n: nat, k: nat)
    requires k <= m < WORD && n < WORD
    ensures k * n <= m * n < WORD * WORD
  {
    Monotone(k, m, n);
    Monotone(n, WORD, m);
    Monotone(m, WORD, WORD);
  }

  lemma OneMorePart(m: nat, p: nat, done: nat, rest: nat)
    requires m == rest * p + done && rest >= 1
    ensures done + p <= m && (rest == 1 ==> done + p == m)
  {
    Monotone(1, rest, p);
  }

  lemma Join(x: nat, y: nat, n: nat)
    ensures x * n + n * y == (x + y) * n
  {
  }

  /** With the bit set, adding b shifted by i makes the partial product one of one more bit. */
  lemma PartialProduct(m: nat, n: nat, i: nat, p: nat, done: nat, rest: nat, a: int32)
    requires Progress(m, i, p, done, rest, a) && m < WORD && n < WORD && rest >= 1
    ensures done + p <= m && done * n + n * p == (done + p) * n <= m * n < WORD * WORD
    ensures rest == 1 ==> done + p == m
  {
    hide Power;
    OneMorePart(m, p, done, rest);
    Join(done, p, n);
    ProductFits(m, n, done + p);
  }

  lemma ShiftFits(m: nat, n: nat, i: nat, p: nat, done: nat, rest: nat, a: int32)
    requires i < 32 && Progress(m, i, p, done, rest, a) && n < WORD
    ensures 2 * (n * p) == n * (2 * p) < WORD * WORD
  {
    Power32();
    PowerGrows(i + 1, 32);
    hide Power;
    Monotone(2 * p, WORD, n);
    Monotone(n, WORD - 1, WORD);
    TwiceAsMuch(n, p);
  }

  lemma TwiceAsMuch(n: nat, p: nat)
    ensures 2 * (n * p) == n * (2 * p)
  {
  }

  lemma {:induction false} PowerGrows(i: nat, j: nat)
    requires i <= j
    ensures Power(i) <= Power(j)
    decreases j
  {
    if i < j {
      PowerGrows(i, j - 1);
    }
  }

  /** Check a's bits one at a time, and add in a shifted value of b. */
  method MultUnsigned(a0: int32, b: int32) returns (hi: word, lo: word)
    ensures Double(hi, lo) == Unsigned(a0) * Unsigned(b)
  {
    hide Double, Power, Progress, Unsigned;
    var a := a0;
    var bLo, bHi: word := Unsigned(b) as word, 0;
    hi, lo := 0, 0;
    ghost var m, n := Unsigned(a0), Unsigned(b);
    ghost var p: nat, done: nat, rest: nat := 1, 0, m;
    Start(a, b);
    for i := 0 to 32
      invariant Progress(m, i, p, done, rest, a)
      invariant Double(bHi, bLo) == n * p
      invariant Double(hi, lo) == done * n
    {
      SameLowBit(m, i, p, done, rest, a);
      if a as int % 2 == 1 {
        PartialProduct(m, n, i, p, done, rest, a);
        hi, lo := AddDouble(hi, lo, bHi, bLo);
        if a == 0 || a == 1 {
          LastBit(m, i, p, done, rest, a);
          return;
        }
      }
      NextBit(m, i, p, done, rest, a);
      NextProduct(n, p, done, rest);
      ShiftFits(m, n, i, p, done, rest, a);
      bHi, bLo := ShiftDouble(bHi, bLo);
      a := (a as int / 2) as int32;
      p, done, rest := 2 * p, done + (rest % 2) * p, rest / 2;
    }
    NothingLeft(m, p, done, rest, a);
  }

  lemma Start(a: int32, b: int32)
    ensures Progress(Unsigned(a), 0, 1, 0, Unsigned(a), a)
    ensures Double(0, Unsigned(b) as word) == Unsigned(b) && Double(0, 0) == 0
  {
    Power32();
  }

  lemma LastBit(m: nat, i: nat, p: nat, done: nat, rest: nat, a: int32)
    requires Progress(m, i, p, done, rest, a) && a == 1
    ensures rest == 1
  {
  }

  lemma NextProduct(n: nat, p: nat, done: nat, rest: nat)
    ensures (done + (rest % 2) * p) * n == if rest % 2 == 1 then done * n + n * p else done * n
  {
    if rest % 2 == 1 {
      assert (done + p) * n == done * n + p * n;
    }
  }

  /**
   The double-length product, exactly: of a and b as ints if signedArith is set, and as
   unsigned ints if not.
   */
  method Mult(a0: int32, b0: int32, signedArith: bool) returns (hiReg: int32, loReg: int32)
    ensures signedArith ==> SignedDouble(hiReg, loReg) == a0 as int * b0 as int
    ensures !signedArith ==> Unsigned(hiReg) * 0x1_0000_0000 + Unsigned(loReg) == Unsigned(a0) * Unsigned(b0)
  {
    var a, b := a0, b0;
    if a == 0 || b == 0 {
      return 0, 0;
    }
    var negative := false;
    if signedArith {
      if a < 0 {
        negative := !negative;
        a := Negated(a);
      }
      if b < 0 {
        negative := !negative;
        b := Negated(b);
      }
    }
    var hi, lo := MultUnsigned(a, b);
    SignsCancel(a0, b0, a, b, signedArith);
    if negative {
      hi, lo := NegateDouble(hi, lo);
    }
    hiReg, loReg := Signed(hi as int), Signed(lo as int);
  }

  function Abs(x: int): nat {
    if x < 0 then -x else x
  }

  /** The magnitudes multiply to the magnitude of the product, which leaves room for a sign. */
  lemma SignsCancel(a0: int32, b0: int32, a: int32, b: int32, signedArith: bool)
    requires a0 != 0 && b0 != 0
    requires a == (if signedArith && a0 < 0 then Negated(a0) else a0)
        && b == (if signedArith && b0 < 0 then Negated(b0) else b0)
    ensures signedArith ==> Unsigned(a) == Abs(a0 as int) && Unsigned(b) == Abs(b0 as int)
    ensures signedArith ==>
      a0 as int * b0 as int ==
          (if (a0 < 0) != (b0 < 0) then -(Unsigned(a) * Unsigned(b)) else Unsigned(a) * Unsigned(b))
    ensures signedArith ==> 0 < Unsigned(a) * Unsigned(b) <= 0x8000_0000 * 0x8000_0000
  {
    if signedArith {
      var x, y := Abs(a0 as int), Abs(b0 as int);
      assert 0 < x <= 0x8000_0000 && 0 < y <= 0x8000_0000;
      Monotone(x, 0x8000_0000, y);
      Monotone(y, 0x8000_0000, 0x8000_0000);
      Monotone(1, x, y);
      SignedProduct(a0 as int, b0 as int);
    }
  }

  lemma SignedProduct(x: int, y: int)
    ensures x * y == if (x < 0) != (y < 0) then -(Abs(x) * Abs(y)) else Abs(x) * Abs(y)
  {
  }
}
