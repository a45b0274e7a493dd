/** The integer types of the simulated machine and of its disk. */
module Words {

  newtype byte = x: int | 0 <= x < 256
  newtype int32 = x: int | -0x8000_0000 <= x < 0x8000_0000

  /** An int read as `unsigned int`. */
  function Unsigned(i: int32): (n: int)
    ensures 0 <= n < 0x1_0000_0000
  {
    if i < 0 then i as int + 0x1_0000_0000 else i as int
  }

  /** An `unsigned int` read as int. */
  function Signed(n: int): int32
    requires 0 <= n < 0x1_0000_0000
  {
    if n < 0x8000_0000 then n as int32 else (n - 0x1_0000_0000) as int32
  }

  // ----- The bytes of a 32-bit word, least significant first -----

  function Byte(w: bv32, k: nat): bv8 {
    match k
    case 0 => (w & 0xff) as bv8
    case 1 => ((w >> 8) & 0xff) as bv8
    case 2 => ((w >> 16) & 0xff) as bv8
    case _ => ((w >> 24) & 0xff) as bv8
  }

  function Word(b0: bv8, b1: bv8, b2: bv8, b3: bv8): bv32 {
    ((b0 as bv32) | ((b1 as bv32) << 8)) | (((b2 as bv32) << 16) | ((b3 as bv32) << 24))
  }

  lemma WordBytes(b0: bv8, b1: bv8, b2: bv8, b3: bv8)
    ensures Byte(Word(b0, b1, b2, b3), 0) == b0 && Byte(Word(b0, b1, b2, b3), 1) == b1
    ensures Byte(Word(b0, b1, b2, b3), 2) == b2 && Byte(Word(b0, b1, b2, b3), 3) == b3
  {
  }

  lemma BytesWord(w: bv32)
    ensures Word(Byte(w, 0), Byte(w, 1), Byte(w, 2), Byte(w, 3)) == w
  {
  }
}
