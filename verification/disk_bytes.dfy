/** How NachOS lays out integers in sectors and file bytes: 4 bytes each, least significant first. */
module DiskBytes {

  import opened DiskGeometry
  import opened Words

  /** Sizes of bitmap.h. */
  const BITS_IN_BYTE := 8
  const BITS_IN_WORD := 32

  type Sector = s: seq<byte> | |s| == SECTOR_SIZE witness seq(SECTOR_SIZE, _ => 0)

  function DivRoundUp(n: nat, s: nat): nat
    requires s > 0
  {
    if n % s == 0 then n / s else n / s + 1
  }

  // ----- Signed integers -----

  function ByteOf(i: int32, k: nat): byte {
    var n := Unsigned(i);
    match k
    case 0 => (n % 256) as byte
    case 1 => (n / 256 % 256) as byte
    case 2 => (n / 65536 % 256) as byte
    case _ => (n / 16777216) as byte
  }

  function FromBytes(b0: byte, b1: byte, b2: byte, b3: byte): int32 {
    var low := b0 as int + 256 * b1 as int + 65536 * b2 as int;
    if b3 < 128 then (low + 16777216 * b3 as int) as int32 else (low + 16777216 * (b3 as int - 256)) as int32
  }

  lemma IntRoundTrip(i: int32)
    ensures FromBytes(ByteOf(i, 0), ByteOf(i, 1), ByteOf(i, 2), ByteOf(i, 3)) == i
  {
    Digits(Unsigned(i));
  }

  lemma Digits(n: nat)
    ensures n == n % 256 + 256 * (n / 256 % 256) + 65536 * (n / 65536 % 256) + 16777216 * (n / 16777216)
  {
    var a := n / 256;
    var b := a / 256;
    DivDiv(n, 256, 256);
    DivDiv(n, 65536, 256);
    assert n == 256 * a + n % 256 && a == 256 * b + a % 256 && b == 256 * (b / 256) + b % 256;
  }

  lemma DivDiv(n: nat, c: nat, d: nat)
    requires (c == 256 || c == 65536) && d == 256
    ensures n / c / d == n / (c * d)
  {
    if c == 256 {
      assert n / 256 / 256 == n / 65536;
    } else {
      assert n / 65536 / 256 == n / 16777216;
    }
  }

  // ----- Bitmap words -----

  function WordByte(w: bv32, k: nat): byte {
    Byte(w, k) as byte
  }

  function FromWordBytes(b0: byte, b1: byte, b2: byte, b3: byte): bv32 {
    Word(b0 as bv8, b1 as bv8, b2 as bv8, b3 as bv8)
  }

  lemma WordRoundTrip(w: bv32)
    ensures FromWordBytes(WordByte(w, 0), WordByte(w, 1), WordByte(w, 2), WordByte(w, 3)) == w
  {
    hide Byte, Word;
    ByteRoundTrip(Byte(w, 0));
    ByteRoundTrip(Byte(w, 1));
    ByteRoundTrip(Byte(w, 2));
    ByteRoundTrip(Byte(w, 3));
    BytesWord(w);
  }

  lemma ByteRoundTrip(b: bv8)
    ensures ((b as byte) as bv8) == b
  {
  }

  // ----- Arrays of either, as the bytes a cast to `char *` shows -----

  function Pack<W>(words: seq<W>, byteOf: (W, nat) -> byte): (s: seq<byte>)
    ensures |s| == 4 * |words|
  {
    seq(4 * |words|, b requires 0 <= b < 4 * |words| => byteOf(words[b / 4], b % 4))
  }

  function Unpack<W>(s: seq<byte>, from: (byte, byte, byte, byte) -> W): (words: seq<W>)
    requires |s| % 4 == 0
    ensures |words| == |s| / 4
  {
    seq(|s| / 4, k requires 0 <= k < |s| / 4 => from(s[4 * k], s[4 * k + 1], s[4 * k + 2], s[4 * k + 3]))
  }

  lemma FourAt(k: nat, j: nat)
    requires j < 4
    ensures (4 * k + j) / 4 == k && (4 * k + j) % 4 == j
  {
  }

  lemma PackRoundTrip<W(!new)>(words: seq<W>, byteOf: (W, nat) -> byte, from: (byte, byte, byte, byte) -> W)
    requires forall w :: from(byteOf(w, 0), byteOf(w, 1), byteOf(w, 2), byteOf(w, 3)) == w
    ensures Unpack(Pack(words, byteOf), from) == words
  {
    forall k | 0 <= k < |words| ensures Unpack(Pack(words, byteOf), from)[k] == words[k] {
      PackedAt(words, byteOf, k, 0);
      PackedAt(words, byteOf, k, 1);
      PackedAt(words, byteOf, k, 2);
      PackedAt(words, byteOf, k, 3);
    }
  }

  lemma PackedAt<W>(words: seq<W>, byteOf: (W, nat) -> byte, k: nat, j: nat)
    requires k < |words| && j < 4
    ensures 4 * k + j < |Pack(words, byteOf)| && Pack(words, byteOf)[4 * k + j] == byteOf(words[k], j)
  {
    FourAt(k, j);
  }

  function PackInts(ints: seq<int32>): (s: seq<byte>)
    ensures |s| == 4 * |ints|
  {
    Pack(ints, ByteOf)
  }

  function UnpackInts(s: seq<byte>): (ints: seq<int32>)
    requires |s| % 4 == 0
    ensures |ints| == |s| / 4
  {
    Unpack(s, FromBytes)
  }

  lemma IntsRoundTrip(ints: seq<int32>)
    ensures UnpackInts(PackInts(ints)) == ints
  {
    forall i {
      IntRoundTrip(i);
    }
    PackRoundTrip(ints, ByteOf, FromBytes);
  }

  /** The value that four bytes from there on stand for, least significant first. */
  function ValueAt(s: seq<byte>, at: nat): int
    requires at + 4 <= |s|
  {
    s[at] as int + 256 * s[at + 1] as int + 65536 * s[at + 2] as int + 16777216 * s[at + 3] as int
  }

  /** The k-th int takes the four bytes from 4k on, in two's complement. */
  lemma LeastSignificantFirst(ints: seq<int32>, k: nat)
    requires k < |ints|
    ensures 4 * k + 4 <= |PackInts(ints)|
    ensures ValueAt(PackInts(ints), 4 * k) == ints[k] as int + if ints[k] < 0 then 0x1_0000_0000 else 0
  {
    Digits(Unsigned(ints[k]));
    PackedAt(ints, ByteOf, k, 0);
    PackedAt(ints, ByteOf, k, 1);
    PackedAt(ints, ByteOf, k, 2);
    PackedAt(ints, ByteOf, k, 3);
  }

  function PackWords(words: seq<bv32>): (s: seq<byte>)
    ensures |s| == 4 * |words|
  {
    Pack(words, WordByte)
  }

  function UnpackWords(s: seq<byte>): (words: seq<bv32>)
    requires |s| % 4 == 0
    ensures |words| == |s| / 4
  {
    Unpack(s, FromWordBytes)
  }

  lemma WordsRoundTrip(words: seq<bv32>)
    ensures UnpackWords(PackWords(words)) == words
  {
    forall w {
      WordRoundTrip(w);
    }
    PackRoundTrip(words, WordByte, FromWordBytes);
  }
}
