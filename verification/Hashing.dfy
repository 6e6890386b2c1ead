/** What the two hash functions share: bytes, words, rotation and blocks. */
module Hashing {
  import opened Common

  type Bytes = seq<bv8>

  /** The bytes of a word, lowest first, as a little-endian host keeps them in memory. */
  function LittleEndian(w: bv32): (b: Bytes)
    ensures |b| == 4
  {
    [(w & 0xff) as bv8, ((w >> 8) & 0xff) as bv8, ((w >> 16) & 0xff) as bv8, ((w >> 24) & 0xff) as bv8]
  }

  /** The word that a little-endian host reads from four bytes. */
  function WordAt(b: Bytes, i: nat): bv32
    requires i + 4 <= |b|
  {
    (((b[i + 3] as bv32 << 8) | b[i + 2] as bv32) << 16) | ((b[i + 1] as bv32 << 8) | b[i] as bv32)
  }

  lemma WordAtOfLittleEndian(w: bv32)
    ensures WordAt(LittleEndian(w), 0) == w
  {
  }

  lemma LittleEndianOfWordAt(b: Bytes, i: nat)
    requires i + 4 <= |b|
    ensures LittleEndian(WordAt(b, i)) == b[i..i + 4]
  {
    var b0, b1, b2, b3 := b[i], b[i + 1], b[i + 2], b[i + 3];
    BytesOfWord(b0, b1, b2, b3);
  }

  lemma BytesOfWord(b0: bv8, b1: bv8, b2: bv8, b3: bv8)
    ensures var w := (((b3 as bv32 << 8) | b2 as bv32) << 16) | ((b1 as bv32 << 8) | b0 as bv32);
            && (w & 0xff) as bv8 == b0 && ((w >> 8) & 0xff) as bv8 == b1
            && ((w >> 16) & 0xff) as bv8 == b2 && ((w >> 24) & 0xff) as bv8 == b3
  {
  }

  /** Addition modulo 2^32. It has a name so that proofs can leave it uninterpreted. */
  function Plus(x: bv32, y: bv32): bv32 { x + y }

  lemma PlusCommutes(x: bv32, y: bv32)
    ensures Plus(x, y) == Plus(y, x)
  {
  }

  lemma PlusAssociates(x: bv32, y: bv32, z: bv32)
    ensures Plus(Plus(x, y), z) == Plus(x, Plus(y, z))
  {
    calc {
      Plus(Plus(x, y), z);
      Plus(x + y, z);
      (x + y) + z;
      { SumAssociates(x, y, z); }
      x + (y + z);
      x + Plus(y, z);
      Plus(x, Plus(y, z));
    }
  }

  lemma SumAssociates(x: bv32, y: bv32, z: bv32)
    ensures (x + y) + z == x + (y + z)
  {
  }

  /** w rotated left by n bits. */
  function Rotate(w: bv32, n: nat): bv32
    requires 0 < n < 32
  {
    (w << n) | (w >> (32 - n))
  }

  /** The whole blocks of a message, and what follows them. */
  function Whole(m: Bytes): (w: Bytes)
    ensures |w| % 64 == 0 && |w| == |m| - |m| % 64
  {
    m[..|m| - |m| % 64]
  }

  function Rest(m: Bytes): (r: Bytes)
    ensures |r| == |m| % 64 && Whole(m) + r == m
  {
    m[|m| - |m| % 64..]
  }

  /** How many zeros bring length + 1 to 56 modulo 64. */
  function PadZeros(length: nat): (z: nat)
    ensures z < 64 && (length + 1 + z + 8) % 64 == 0
  {
    if length % 64 < 56 then 55 - length % 64 else 119 - length % 64
  }

  /** The message with its padding, up to the length. */
  function Padded(m: Bytes): (p: Bytes)
    ensures |p| % 64 == 56
  {
    m + [0x80] + Repeat<bv8>(0, PadZeros(|m|))
  }
}
