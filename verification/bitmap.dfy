/** lib/bitmap.cc: an array of bits in 32-bit words, verified against a sequence of booleans. */
module Bitmaps {
  import opened DiskBytes
  import opened Words

  // ----- Sequences of bits -----

  /** The first clear bit at or after `from`; |bits| if there is none. */
  function FirstClear(bits: seq<bool>, from: nat := 0): (k: nat)
    requires from <= |bits|
    ensures from <= k <= |bits|
    ensures forall j :: from <= j < k ==> bits[j]
    ensures k < |bits| ==> !bits[k]
    decreases |bits| - from
  {
    if from == |bits| || !bits[from] then from else FirstClear(bits, from + 1)
  }

  function NumClear(bits: seq<bool>): (n: nat)
    ensures n <= |bits|
  {
    if bits == [] then 0 else NumClear(bits[..|bits| - 1]) + if bits[|bits| - 1] then 0 else 1
  }

  lemma NumClearMore(bits: seq<bool>, i: nat)
    requires i < |bits|
    ensures NumClear(bits[..i + 1]) == NumClear(bits[..i]) + if bits[i] then 0 else 1
  {
    assert bits[..i + 1][..i] == bits[..i];
  }

  lemma {:induction false} NumClearSet(bits: seq<bool>, k: nat, b: bool)
    requires k < |bits| && bits[k] != b
    ensures NumClear(bits[k := b]) == if b then NumClear(bits) - 1 else NumClear(bits) + 1
  {
    var n := |bits| - 1;
    if k == n {
      assert bits[k := b][..n] == bits[..n];
    } else {
      assert bits[k := b][..n] == bits[..n][k := b];
      NumClearSet(bits[..n], k, b);
    }
  }

  lemma {:induction false} NumClearPositive(bits: seq<bool>)
    ensures NumClear(bits) == 0 <==> FirstClear(bits) == |bits|
  {
    if bits != [] {
      var n := |bits| - 1;
      NumClearPositive(bits[..n]);
      if FirstClear(bits) == |bits| {
        assert forall j :: 0 <= j < n ==> bits[..n][j];
      }
    }
  }

  // ----- Words -----

  predicate Bit(words: seq<bv32>, i: nat)
    requires i < 32 * |words|
  {
    TestBit(words[i / BITS_IN_WORD], i % BITS_IN_WORD)
  }

  /** The word with bit k set. */
  function Mask(k: nat): bv32
    requires k < 32
  {
    1 << k
  }

  predicate Overlap(v: bv32, w: bv32) {
    v & w != 0
  }

  predicate TestBit(w: bv32, k: nat) {
    k < 32 && Overlap(w, Mask(k))
  }

  function BitsOf(words: seq<bv32>, numBits: nat): (bits: seq<bool>)
    requires numBits <= 32 * |words|
    ensures |bits| == numBits
    ensures forall i :: 0 <= i < numBits ==> bits[i] == Bit(words, i)
  {
    seq(numBits, i requires 0 <= i < numBits => Bit(words, i))
  }

  lemma OneBit(k: nat, j: nat)
    requires k < 32 && j < 32
    ensures Mask(k) != 0 && (k != j ==> Mask(k) & Mask(j) == 0)
  {
  }

  function Joined(w: bv32, m: bv32): bv32 {
    w | m
  }

  function Cleared(w: bv32, m: bv32): bv32 {
    w & !m
  }

  lemma JoinedSame(w: bv32, n: bv32)
    requires n != 0
    ensures Overlap(Joined(w, n), n)
  {
    assert (w | n) & n == n;
  }

  lemma JoinedOther(w: bv32, m: bv32, n: bv32)
    requires m & n == 0
    ensures Overlap(Joined(w, m), n) == Overlap(w, n)
  {
    assert Joined(w, m) & n == (w & n) | (m & n);
  }

  lemma ClearedSame(w: bv32, n: bv32)
    ensures !Overlap(Cleared(w, n), n)
  {
    assert (w & !n) & n == 0;
  }

  lemma ClearedOther(w: bv32, m: bv32, n: bv32)
    requires m & n == 0
    ensures Overlap(Cleared(w, m), n) == Overlap(w, n)
  {
    assert Cleared(w, m) & n == w & n;
  }

  /** Changing one bit of one word changes that bit of the sequence and no other. */
  lemma OneBitChanges<W>(words: seq<W>, test: (W, nat) -> bool, i: nat, w: W, b: bool, j: nat)
    requires i < 32 * |words| && j < 32 * |words|
    requires forall k: nat :: k < 32 ==> test(w, k) == if k == i % 32 then b else test(words[i / 32], k)
    ensures test(words[i / 32 := w][j / 32], j % 32) == if j == i then b else test(words[j / 32], j % 32)
  {
    SameBit(i, j);
    assert j % 32 < 32;
  }

  function WithBit(w: bv32, k: nat): bv32
    requires k < 32
  {
    Joined(w, Mask(k))
  }

  function WithoutBit(w: bv32, k: nat): bv32
    requires k < 32
  {
    Cleared(w, Mask(k))
  }

  lemma WithBitTest(w: bv32, i: nat, k: nat)
    requires i < 32 && k < 32
    ensures TestBit(WithBit(w, i), k) <==> k == i || TestBit(w, k)
  {
    hide Mask, Overlap, Joined;
    OneBit(i, k);
    if k == i {
      JoinedSame(w, Mask(k));
    } else {
      JoinedOther(w, Mask(i), Mask(k));
    }
  }

  lemma WithoutBitTest(w: bv32, i: nat, k: nat)
    requires i < 32 && k < 32
    ensures TestBit(WithoutBit(w, i), k) <==> k != i && TestBit(w, k)
  {
    hide Mask, Overlap, Cleared;
    OneBit(i, k);
    if k == i {
      ClearedSame(w, Mask(k));
    } else {
      ClearedOther(w, Mask(i), Mask(k));
    }
  }

  lemma WithBitTests(w: bv32, i: nat)
    requires i < 32
    ensures forall k: nat :: k < 32 ==> TestBit(WithBit(w, i), k) == if k == i then true else TestBit(w, k)
  {
    hide TestBit, WithBit;
    forall k: nat | k < 32 ensures TestBit(WithBit(w, i), k) == if k == i then true else TestBit(w, k) {
      WithBitTest(w, i, k);
    }
  }

  lemma WithoutBitTests(w: bv32, i: nat)
    requires i < 32
    ensures forall k: nat :: k < 32 ==> TestBit(WithoutBit(w, i), k) == if k == i then false else TestBit(w, k)
  {
    hide TestBit, WithoutBit;
    forall k: nat | k < 32 ensures TestBit(WithoutBit(w, i), k) == if k == i then false else TestBit(w, k) {
      WithoutBitTest(w, i, k);
    }
  }

  lemma BitsUpdate(words: seq<bv32>, i: nat, w: bv32, b: bool, numBits: nat)
    requires i < numBits <= 32 * |words|
    requires forall k: nat :: k < 32 ==> TestBit(w, k) == if k == i % 32 then b else TestBit(words[i / 32], k)
    ensures BitsOf(words[i / 32 := w], numBits) == BitsOf(words, numBits)[i := b]
  {
    forall j | 0 <= j < numBits {
      OneBitChanges(words, TestBit, i, w, b, j);
    }
  }

  lemma SameBit(i: nat, j: nat)
    ensures i / 32 == j / 32 && i % 32 == j % 32 ==> i == j
  {
  }

  class Bitmap {
    const numBits: nat
    const words: array<bv32>

    ghost predicate Valid() {
      numBits <= 32 * words.Length
    }

    ghost function Bits(): (bits: seq<bool>)
      requires Valid()
      reads words
      ensures |bits| == numBits
    {
      BitsOf(words[..], numBits)
    }

    constructor (numItems: nat)
      requires numItems > 0
      ensures Valid() && fresh(words)
      ensures numBits == numItems && words.Length == DivRoundUp(numItems, BITS_IN_WORD)
      ensures Bits() == seq(numItems, _ => false)
    {
      numBits := numItems;
      words := new bv32[DivRoundUp(numItems, BITS_IN_WORD)](_ => 0);
      new;
      for i := 0 to numBits
        invariant Bits() == seq(numBits, _ => false)
      {
        Clear(i);
      }
    }

    method Mark(which: nat)
      requires Valid() && which < numBits
      modifies words
      ensures Bits() == old(Bits())[which := true]
    {
      WithBitTests(words[which / BITS_IN_WORD], which % BITS_IN_WORD);
      BitsUpdate(words[..], which, WithBit(words[which / BITS_IN_WORD], which % BITS_IN_WORD), true, numBits);
      words[which / BITS_IN_WORD] := WithBit(words[which / BITS_IN_WORD], which % BITS_IN_WORD);
      var marked := Test(which);
      assert marked;
    }

    method Clear(which: nat)
      requires Valid() && which < numBits
      modifies words
      ensures Bits() == old(Bits())[which := false]
    {
      WithoutBitTests(words[which / BITS_IN_WORD], which % BITS_IN_WORD);
      BitsUpdate(words[..], which, WithoutBit(words[which / BITS_IN_WORD], which % BITS_IN_WORD), false, numBits);
      words[which / BITS_IN_WORD] := WithoutBit(words[which / BITS_IN_WORD], which % BITS_IN_WORD);
      var marked := Test(which);
      assert !marked;
    }

    method Test(which: nat) returns (b: bool)
      requires Valid() && which < numBits
      ensures b == Bits()[which]
    {
      b := TestBit(words[which / BITS_IN_WORD], which % BITS_IN_WORD);
    }

    /** The lowest clear bit, now set; -1 if there is none. */
    method FindAndSet() returns (k: int)
      requires Valid()
      modifies words
      ensures var bits := old(Bits()); var first := FirstClear(bits);
              if first == numBits then k == -1 && Bits() == bits else k == first && Bits() == bits[first := true]
    {
      for i := 0 to numBits
        invariant Bits() == old(Bits())
        invariant forall j :: 0 <= j < i ==> Bits()[j]
      {
        var b := Test(i);
        if !b {
          Mark(i);
          return i;
        }
      }
      return -1;
    }

    method CountClear() returns (count: nat)
      requires Valid()
      ensures count == NumClear(Bits())
    {
      count := 0;
      for i := 0 to numBits
        invariant count == NumClear(Bits()[..i])
      {
        var b := Test(i);
        NumClearMore(Bits(), i);
        if !b {
          count := count + 1;
        }
      }
      assert Bits()[..numBits] == Bits();
    }
  }
}
