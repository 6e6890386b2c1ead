/**
  base/md5.cc: MD5 over a context that is updated in place, chunk by chunk.

  The first part states the algorithm as RFC 1321 does, on a whole message: padding
  (sections 3.1 and 3.2), the registers (3.3), the table-driven rounds (3.4) and the output
  (3.5). The second part is the code, proved to compute the same.
*/
module MD5 {
  import opened Common
  import opened Hashing

  // ----- RFC 1321 ---------------------------------------------------------------------

  datatype Registers = Registers(a: bv32, b: bv32, c: bv32, d: bv32)

  const INITIAL := Registers(0x67452301, 0xefcdab89, 0x98badcfe, 0x10325476)

  function F(x: bv32, y: bv32, z: bv32): bv32 { (x & y) | (!x & z) }
  function G(x: bv32, y: bv32, z: bv32): bv32 { (x & z) | (y & !z) }
  function H(x: bv32, y: bv32, z: bv32): bv32 { x ^ y ^ z }
  function I(x: bv32, y: bv32, z: bv32): bv32 { y ^ (x | !z) }

  /** The auxiliary function of operation i. */
  function Auxiliary(i: nat, x: bv32, y: bv32, z: bv32): bv32 {
    if i < 16 then F(x, y, z) else if i < 32 then G(x, y, z) else if i < 48 then H(x, y, z) else I(x, y, z)
  }

  /** The word of the block that operation i adds. */
  function K(i: nat): (k: nat)
    ensures k < 16
  {
    if i < 16 then i else if i < 32 then (1 + 5 * i) % 16 else if i < 48 then (5 + 3 * i) % 16 else 7 * i % 16
  }

  /** The rotation of operation i. */
  function S(i: nat): (s: nat)
    ensures 0 < s < 32
  {
    var j := i % 4;
    if i < 16 then (if j == 0 then 7 else if j == 1 then 12 else if j == 2 then 17 else 22)
    else if i < 32 then (if j == 0 then 5 else if j == 1 then 9 else if j == 2 then 14 else 20)
    else if i < 48 then (if j == 0 then 4 else if j == 1 then 11 else if j == 2 then 16 else 23)
    else (if j == 0 then 6 else if j == 1 then 10 else if j == 2 then 15 else 21)
  }

  /** The table T, sixteen entries a round: the integer part of 4294967296 times
      abs(sin(i + 1)). */
  function T(i: nat): bv32 {
    if i < 16 then T1(i) else if i < 32 then T2(i - 16) else if i < 48 then T3(i - 32) else T4(i - 48)
  }

  function T1(j: nat): bv32 {
    if j == 0 then 0xd76aa478 else if j == 1 then 0xe8c7b756 else if j == 2 then 0x242070db
    else if j == 3 then 0xc1bdceee else if j == 4 then 0xf57c0faf else if j == 5 then 0x4787c62a
    else if j == 6 then 0xa8304613 else if j == 7 then 0xfd469501 else if j == 8 then 0x698098d8
    else if j == 9 then 0x8b44f7af else if j == 10 then 0xffff5bb1 else if j == 11 then 0x895cd7be
    else if j == 12 then 0x6b901122 else if j == 13 then 0xfd987193 else if j == 14 then 0xa679438e
    else 0x49b40821
  }

  function T2(j: nat): bv32 {
    if j == 0 then 0xf61e2562 else if j == 1 then 0xc040b340 else if j == 2 then 0x265e5a51
    else if j == 3 then 0xe9b6c7aa else if j == 4 then 0xd62f105d else if j == 5 then 0x02441453
    else if j == 6 then 0xd8a1e681 else if j == 7 then 0xe7d3fbc8 else if j == 8 then 0x21e1cde6
    else if j == 9 then 0xc33707d6 else if j == 10 then 0xf4d50d87 else if j == 11 then 0x455a14ed
    else if j == 12 then 0xa9e3e905 else if j == 13 then 0xfcefa3f8 else if j == 14 then 0x676f02d9
    else 0x8d2a4c8a
  }

  function T3(j: nat): bv32 {
    if j == 0 then 0xfffa3942 else if j == 1 then 0x8771f681 else if j == 2 then 0x6d9d6122
    else if j == 3 then 0xfde5380c else if j == 4 then 0xa4beea44 else if j == 5 then 0x4bdecfa9
    else if j == 6 then 0xf6bb4b60 else if j == 7 then 0xbebfbc70 else if j == 8 then 0x289b7ec6
    else if j == 9 then 0xeaa127fa else if j == 10 then 0xd4ef3085 else if j == 11 then 0x04881d05
    else if j == 12 then 0xd9d4d039 else if j == 13 then 0xe6db99e5 else if j == 14 then 0x1fa27cf8
    else 0xc4ac5665
  }

  function T4(j: nat): bv32 {
    if j == 0 then 0xf4292244 else if j == 1 then 0x432aff97 else if j == 2 then 0xab9423a7
    else if j == 3 then 0xfc93a039 else if j == 4 then 0x655b59c3 else if j == 5 then 0x8f0ccc92
    else if j == 6 then 0xffeff47d else if j == 7 then 0x85845dd1 else if j == 8 then 0x6fa87e4f
    else if j == 9 then 0xfe2ce6e0 else if j == 10 then 0xa3014314 else if j == 11 then 0x4e0811a1
    else if j == 12 then 0xf7537e82 else if j == 13 then 0xbd3af235 else if j == 14 then 0x2ad7d2bb
    else 0xeb86d391
  }

  /** Operation i on a block: a = b + ((a + Auxiliary(b,c,d) + X[k] + T[i]) <<< s), after
      which the registers change roles. */
  function Operation(r: Registers, x: seq<bv32>, i: nat): Registers
    requires |x| == 16
  {
    Registers(r.d, Plus(r.b, Rotate(Plus(Plus(Plus(r.a, Auxiliary(i, r.b, r.c, r.d)), x[K(i)]), T(i)), S(i))), r.b, r.c)
  }

  function Operations(r: Registers, x: seq<bv32>, n: nat): Registers
    requires |x| == 16
  {
    if n == 0 then r else Operation(Operations(r, x, n - 1), x, n - 1)
  }

  /** The words of a block, low-order byte first. */
  function Words(block: Bytes): (x: seq<bv32>)
    requires |block| == 64
    ensures |x| == 16
  {
    seq(16, j requires 0 <= j < 16 => WordAt(block, 4 * j))
  }

  function AddRegisters(h: Registers, r: Registers): Registers {
    Registers(Plus(h.a, r.a), Plus(h.b, r.b), Plus(h.c, r.c), Plus(h.d, r.d))
  }

  function Compress(h: Registers, block: Bytes): Registers
    requires |block| == 64
  {
    AddRegisters(h, Operations(h, Words(block), 64))
  }

  /** The registers after the whole blocks of a message. */
  function Fold(message: Bytes): Registers
    requires |message| % 64 == 0
  {
    if message == [] then INITIAL
    else Compress(Fold(message[..|message| - 64]), message[|message| - 64..])
  }

  function Word(n: nat): bv32
    requires n < TWO32
  {
    n as bv32
  }

  /** The length in bits modulo 2^64 as two words, low-order word first. */
  function LengthBytes(length: nat): (b: Bytes)
    ensures |b| == 8
  {
    LittleEndian(Word(8 * length % TWO32)) + LittleEndian(Word(8 * length / TWO32 % TWO32))
  }

  /** 0x80 and zeros up to 56 modulo 64, then the length. */
  function Padding(length: nat): (p: Bytes)
    ensures |p| == 1 + PadZeros(length) + 8
  {
    [0x80] + Repeat<bv8>(0, PadZeros(length)) + LengthBytes(length)
  }

  function Output(r: Registers): Bytes {
    LittleEndian(r.a) + LittleEndian(r.b) + LittleEndian(r.c) + LittleEndian(r.d)
  }

  function Digest(message: Bytes): Bytes {
    Output(Fold(message + Padding(|message|)))
  }

  // ----- the transform ----------------------------------------------------------------

  function F1(x: bv32, y: bv32, z: bv32): bv32 { z ^ (x & (y ^ z)) }
  function F2(x: bv32, y: bv32, z: bv32): bv32 { F1(z, x, y) }
  function F3(x: bv32, y: bv32, z: bv32): bv32 { x ^ y ^ z }
  function F4(x: bv32, y: bv32, z: bv32): bv32 { y ^ (x | !z) }

  /** MD5STEP: the new value of w. */
  function Md5Step(f: bv32, w: bv32, x: bv32, data: bv32, s: nat): bv32
    requires 0 < s < 32
  {
    Plus(Rotate(Plus(w, Plus(f, data)), s), x)
  }

  /** The function that the code uses where the RFC makes operation i. */
  function CodeFunction(i: nat, x: bv32, y: bv32, z: bv32): bv32 {
    if i < 16 then F1(x, y, z) else if i < 32 then F2(x, y, z) else if i < 48 then F3(x, y, z) else F4(x, y, z)
  }

  lemma Choice(x: bv32, y: bv32, z: bv32)
    ensures z ^ (x & (y ^ z)) == (x & y) | (!x & z)
  {
  }

  lemma F1IsF(x: bv32, y: bv32, z: bv32)
    ensures F1(x, y, z) == F(x, y, z)
  {
    calc {
      F1(x, y, z);
      z ^ (x & (y ^ z));
      { Choice(x, y, z); }
      (x & y) | (!x & z);
      F(x, y, z);
    }
  }

  lemma F2IsG(x: bv32, y: bv32, z: bv32)
    ensures F2(x, y, z) == G(x, y, z)
  {
    calc {
      F2(x, y, z);
      F1(z, x, y);
      { F1IsF(z, x, y); }
      F(z, x, y);
      { AndCommutes(z, x); AndCommutes(!z, y); }
      (x & z) | (y & !z);
      G(x, y, z);
    }
  }

  lemma AndCommutes(x: bv32, y: bv32)
    ensures x & y == y & x
  {
  }

  /** The optimised functions are those of the RFC. */
  lemma CodeFunctionIsAuxiliary(i: nat, x: bv32, y: bv32, z: bv32)
    ensures CodeFunction(i, x, y, z) == Auxiliary(i, x, y, z)
  {
    F1IsF(x, y, z);
    F2IsG(x, y, z);
    hide F1, F2, F, G;
  }

  lemma StepSum(f: bv32, w: bv32, x: bv32, word: bv32, t: bv32, s: nat)
    requires 0 < s < 32
    ensures Md5Step(f, w, x, Plus(word, t), s) == Plus(x, Rotate(Plus(Plus(Plus(w, f), word), t), s))
  {
    hide Plus, Rotate;
    PlusAssociates(w, f, Plus(word, t));
    PlusAssociates(Plus(w, f), word, t);
    PlusCommutes(Rotate(Plus(Plus(Plus(w, f), word), t), s), x);
  }

  lemma OperationIsStep(r: Registers, x: seq<bv32>, i: nat)
    requires |x| == 16
    ensures Operation(r, x, i)
            == Registers(r.d, Md5Step(CodeFunction(i, r.b, r.c, r.d), r.a, r.b, Plus(x[K(i)], T(i)), S(i)), r.b, r.c)
  {
    hide Plus, Md5Step, Rotate, CodeFunction, Auxiliary, T, S, K;
    CodeFunctionIsAuxiliary(i, r.b, r.c, r.d);
    StepSum(Auxiliary(i, r.b, r.c, r.d), r.a, r.b, x[K(i)], T(i), S(i));
  }

  /** After i operations, a step of the code with the word, constant and rotation that the
      tables give is operation i. */
  lemma Advance(h: Registers, x: seq<bv32>, i: nat, k: nat, t: bv32, n: nat, r: Registers, w: bv32)
    returns (r': Registers)
    requires |x| == 16 && i < 64 && r == Operations(h, x, i)
    requires k == K(i) && t == T(i) && n == S(i)
    requires w == Md5Step(CodeFunction(i, r.b, r.c, r.d), r.a, r.b, Plus(x[k], t), n)
    ensures r' == Operations(h, x, i + 1) == Registers(r.d, w, r.b, r.c)
  {
    hide Plus, Md5Step, Rotate, CodeFunction, Auxiliary, T, S, K, Operation;
    r' := Operation(r, x, i);
    OperationIsStep(r, x, i);
  }

  /** The sixteen steps that the code makes with F1. */
  method Round1a(r0: Registers, x: seq<bv32>, ghost h: Registers) returns (r: Registers)
    requires |x| == 16 && r0 == Operations(h, x, 0)
    ensures r == Operations(h, x, 4)
  {
    hide Plus, Md5Step, F1, F2, F3, F4, Operations;
    var a, b, c, d := r0.a, r0.b, r0.c, r0.d;
    ghost var s := r0;
    a := Md5Step(F1(b, c, d), a, b, Plus(x[0], 0xd76aa478), 7);
    s := Advance(h, x, 0, 0, 0xd76aa478, 7, s, a);
    d := Md5Step(F1(a, b, c), d, a, Plus(x[1], 0xe8c7b756), 12);
    s := Advance(h, x, 1, 1, 0xe8c7b756, 12, s, d);
    c := Md5Step(F1(d, a, b), c, d, Plus(x[2], 0x242070db), 17);
    s := Advance(h, x, 2, 2, 0x242070db, 17, s, c);
    b := Md5Step(F1(c, d, a), b, c, Plus(x[3], 0xc1bdceee), 22);
    s := Advance(h, x, 3, 3, 0xc1bdceee, 22, s, b);
    r := Registers(a, b, c, d);
  }

  method Round1b(r0: Registers, x: seq<bv32>, ghost h: Registers) returns (r: Registers)
    requires |x| == 16 && r0 == Operations(h, x, 4)
    ensures r == Operations(h, x, 8)
  {
    hide Plus, Md5Step, F1, F2, F3, F4, Operations;
    var a, b, c, d := r0.a, r0.b, r0.c, r0.d;
    ghost var s := r0;
    a := Md5Step(F1(b, c, d), a, b, Plus(x[4], 0xf57c0faf), 7);
    s := Advance(h, x, 4, 4, 0xf57c0faf, 7, s, a);
    d := Md5Step(F1(a, b, c), d, a, Plus(x[5], 0x4787c62a), 12);
    s := Advance(h, x, 5, 5, 0x4787c62a, 12, s, d);
    c := Md5Step(F1(d, a, b), c, d, Plus(x[6], 0xa8304613), 17);
    s := Advance(h, x, 6, 6, 0xa8304613, 17, s, c);
    b := Md5Step(F1(c, d, a), b, c, Plus(x[7], 0xfd469501), 22);
    s := Advance(h, x, 7, 7, 0xfd469501, 22, s, b);
    r := Registers(a, b, c, d);
  }

  method Round1c(r0: Registers, x: seq<bv32>, ghost h: Registers) returns (r: Registers)
    requires |x| == 16 && r0 == Operations(h, x, 8)
    ensures r == Operations(h, x, 12)
  {
    hide Plus, Md5Step, F1, F2, F3, F4, Operations;
    var a, b, c, d := r0.a, r0.b, r0.c, r0.d;
    ghost var s := r0;
    a := Md5Step(F1(b, c, d), a, b, Plus(x[8], 0x698098d8), 7);
    s := Advance(h, x, 8, 8, 0x698098d8, 7, s, a);
    d := Md5Step(F1(a, b, c), d, a, Plus(x[9], 0x8b44f7af), 12);
    s := Advance(h, x, 9, 9, 0x8b44f7af, 12, s, d);
    c := Md5Step(F1(d, a, b), c, d, Plus(x[10], 0xffff5bb1), 17);
    s := Advance(h, x, 10, 10, 0xffff5bb1, 17, s, c);
    b := Md5Step(F1(c, d, a), b, c, Plus(x[11], 0x895cd7be), 22);
    s := Advance(h, x, 11, 11, 0x895cd7be, 22, s, b);
    r := Registers(a, b, c, d);
  }

  method Round1d(r0: Registers, x: seq<bv32>, ghost h: Registers) returns (r: Registers)
    requires |x| == 16 && r0 == Operations(h, x, 12)
    ensures r == Operations(h, x, 16)
  {
    hide Plus, Md5Step, F1, F2, F3, F4, Operations;
    var a, b, c, d := r0.a, r0.b, r0.c, r0.d;
    ghost var s := r0;
    a := Md5Step(F1(b, c, d), a, b, Plus(x[12], 0x6b901122), 7);
    s := Advance(h, x, 12, 12, 0x6b901122, 7, s, a);
    d := Md5Step(F1(a, b, c), d, a, Plus(x[13], 0xfd987193), 12);
    s := Advance(h, x, 13, 13, 0xfd987193, 12, s, d);
    c := Md5Step(F1(d, a, b), c, d, Plus(x[14], 0xa679438e), 17);
    s := Advance(h, x, 14, 14, 0xa679438e, 17, s, c);
    b := Md5Step(F1(c, d, a), b, c, Plus(x[15], 0x49b40821), 22);
    s := Advance(h, x, 15, 15, 0x49b40821, 22, s, b);
    r := Registers(a, b, c, d);
  }

  /** The sixteen steps that the code makes with F2. */
  method Round2a(r0: Registers, x: seq<bv32>, ghost h: Registers) returns (r: Registers)
    requires |x| == 16 && r0 == Operations(h, x, 16)
    ensures r == Operations(h, x, 20)
  {
    hide Plus, Md5Step, F1, F2, F3, F4, Operations;
    var a, b, c, d := r0.a, r0.b, r0.c, r0.d;
    ghost var s := r0;
    a := Md5Step(F2(b, c, d), a, b, Plus(x[1], 0xf61e2562), 5);
    s := Advance(h, x, 16, 1, 0xf61e2562, 5, s, a);
    d := Md5Step(F2(a, b, c), d, a, Plus(x[6], 0xc040b340), 9);
    s := Advance(h, x, 17, 6, 0xc040b340, 9, s, d);
    c := Md5Step(F2(d, a, b), c, d, Plus(x[11], 0x265e5a51), 14);
    s := Advance(h, x, 18, 11, 0x265e5a51, 14, s, c);
    b := Md5Step(F2(c, d, a), b, c, Plus(x[0], 0xe9b6c7aa), 20);
    s := Advance(h, x, 19, 0, 0xe9b6c7aa, 20, s, b);
    r := Registers(a, b, c, d);
  }

  method Round2b(r0: Registers, x: seq<bv32>, ghost h: Registers) returns (r: Registers)
    requires |x| == 16 && r0 == Operations(h, x, 20)
    ensures r == Operations(h, x, 24)
  {
    hide Plus, Md5Step, F1, F2, F3, F4, Operations;
    var a, b, c, d := r0.a, r0.b, r0.c, r0.d;
    ghost var s := r0;
    a := Md5Step(F2(b, c, d), a, b, Plus(x[5], 0xd62f105d), 5);
    s := Advance(h, x, 20, 5, 0xd62f105d, 5, s, a);
    d := Md5Step(F2(a, b, c), d, a, Plus(x[10], 0x02441453), 9);
    s := Advance(h, x, 21, 10, 0x02441453, 9, s, d);
    c := Md5Step(F2(d, a, b), c, d, Plus(x[15], 0xd8a1e681), 14);
    s := Advance(h, x, 22, 15, 0xd8a1e681, 14, s, c);
    b := Md5Step(F2(c, d, a), b, c, Plus(x[4], 0xe7d3fbc8), 20);
    s := Advance(h, x, 23, 4, 0xe7d3fbc8, 20, s, b);
    r := Registers(a, b, c, d);
  }

  method Round2c(r0: Registers, x: seq<bv32>, ghost h: Registers) returns (r: Registers)
    requires |x| == 16 && r0 == Operations(h, x, 24)
    ensures r == Operations(h, x, 28)
  {
    hide Plus, Md5Step, F1, F2, F3, F4, Operations;
    var a, b, c, d := r0.a, r0.b, r0.c, r0.d;
    ghost var s := r0;
    a := Md5Step(F2(b, c, d), a, b, Plus(x[9], 0x21e1cde6), 5);
    s := Advance(h, x, 24, 9, 0x21e1cde6, 5, s, a);
    d := Md5Step(F2(a, b, c), d, a, Plus(x[14], 0xc33707d6), 9);
    s := Advance(h, x, 25, 14, 0xc33707d6, 9, s, d);
    c := Md5Step(F2(d, a, b), c, d, Plus(x[3], 0xf4d50d87), 14);
    s := Advance(h, x, 26, 3, 0xf4d50d87, 14, s, c);
    b := Md5Step(F2(c, d, a), b, c, Plus(x[8], 0x455a14ed), 20);
    s := Advance(h, x, 27, 8, 0x455a14ed, 20, s, b);
    r := Registers(a, b, c, d);
  }

  method Round2d(r0: Registers, x: seq<bv32>, ghost h: Registers) returns (r: Registers)
    requires |x| == 16 && r0 == Operations(h, x, 28)
    ensures r == Operations(h, x, 32)
  {
    hide Plus, Md5Step, F1, F2, F3, F4, Operations;
    var a, b, c, d := r0.a, r0.b, r0.c, r0.d;
    ghost var s := r0;
    a := Md5Step(F2(b, c, d), a, b, Plus(x[13], 0xa9e3e905), 5);
    s := Advance(h, x, 28, 13, 0xa9e3e905, 5, s, a);
    d := Md5Step(F2(a, b, c), d, a, Plus(x[2], 0xfcefa3f8), 9);
    s := Advance(h, x, 29, 2, 0xfcefa3f8, 9, s, d);
    c := Md5Step(F2(d, a, b), c, d, Plus(x[7], 0x676f02d9), 14);
    s := Advance(h, x, 30, 7, 0x676f02d9, 14, s, c);
    b := Md5Step(F2(c, d, a), b, c, Plus(x[12], 0x8d2a4c8a), 20);
    s := Advance(h, x, 31, 12, 0x8d2a4c8a, 20, s, b);
    r := Registers(a, b, c, d);
  }

  /** The sixteen steps that the code makes with F3. */
  method Round3a(r0: Registers, x: seq<bv32>, ghost h: Registers) returns (r: Registers)
    requires |x| == 16 && r0 == Operations(h, x, 32)
    ensures r == Operations(h, x, 36)
  {
    hide Plus, Md5Step, F1, F2, F3, F4, Operations;
    var a, b, c, d := r0.a, r0.b, r0.c, r0.d;
    ghost var s := r0;
    a := Md5Step(F3(b, c, d), a, b, Plus(x[5], 0xfffa3942), 4);
    s := Advance(h, x, 32, 5, 0xfffa3942, 4, s, a);
    d := Md5Step(F3(a, b, c), d, a, Plus(x[8], 0x8771f681), 11);
    s := Advance(h, x, 33, 8, 0x8771f681, 11, s, d);
    c := Md5Step(F3(d, a, b), c, d, Plus(x[11], 0x6d9d6122), 16);
    s := Advance(h, x, 34, 11, 0x6d9d6122, 16, s, c);
    b := Md5Step(F3(c, d, a), b, c, Plus(x[14], 0xfde5380c), 23);
    s := Advance(h, x, 35, 14, 0xfde5380c, 23, s, b);
    r := Registers(a, b, c, d);
  }

  method Round3b(r0: Registers, x: seq<bv32>, ghost h: Registers) returns (r: Registers)
    requires |x| == 16 && r0 == Operations(h, x, 36)
    ensures r == Operations(h, x, 40)
  {
    hide Plus, Md5Step, F1, F2, F3, F4, Operations;
    var a, b, c, d := r0.a, r0.b, r0.c, r0.d;
    ghost var s := r0;
    a := Md5Step(F3(b, c, d), a, b, Plus(x[1], 0xa4beea44), 4);
    s := Advance(h, x, 36, 1, 0xa4beea44, 4, s, a);
    d := Md5Step(F3(a, b, c), d, a, Plus(x[4], 0x4bdecfa9), 11);
    s := Advance(h, x, 37, 4, 0x4bdecfa9, 11, s, d);
    c := Md5Step(F3(d, a, b), c, d, Plus(x[7], 0xf6bb4b60), 16);
    s := Advance(h, x, 38, 7, 0xf6bb4b60, 16, s, c);
    b := Md5Step(F3(c, d, a), b, c, Plus(x[10], 0xbebfbc70), 23);
    s := Advance(h, x, 39, 10, 0xbebfbc70, 23, s, b);
    r := Registers(a, b, c, d);
  }

  method Round3c(r0: Registers, x: seq<bv32>, ghost h: Registers) returns (r: Registers)
    requires |x| == 16 && r0 == Operations(h, x, 40)
    ensures r == Operations(h, x, 44)
  {
    hide Plus, Md5Step, F1, F2, F3, F4, Operations;
    var a, b, c, d := r0.a, r0.b, r0.c, r0.d;
    ghost var s := r0;
    a := Md5Step(F3(b, c, d), a, b, Plus(x[13], 0x289b7ec6), 4);
    s := Advance(h, x, 40, 13, 0x289b7ec6, 4, s, a);
    d := Md5Step(F3(a, b, c), d, a, Plus(x[0], 0xeaa127fa), 11);
    s := Advance(h, x, 41, 0, 0xeaa127fa, 11, s, d);
    c := Md5Step(F3(d, a, b), c, d, Plus(x[3], 0xd4ef3085), 16);
    s := Advance(h, x, 42, 3, 0xd4ef3085, 16, s, c);
    b := Md5Step(F3(c, d, a), b, c, Plus(x[6], 0x04881d05), 23);
    s := Advance(h, x, 43, 6, 0x04881d05, 23, s, b);
    r := Registers(a, b, c, d);
  }

  method Round3d(r0: Registers, x: seq<bv32>, ghost h: Registers) returns (r: Registers)
    requires |x| == 16 && r0 == Operations(h, x, 44)
    ensures r == Operations(h, x, 48)
  {
    hide Plus, Md5Step, F1, F2, F3, F4, Operations;
    var a, b, c, d := r0.a, r0.b, r0.c, r0.d;
    ghost var s := r0;
    a := Md5Step(F3(b, c, d), a, b, Plus(x[9], 0xd9d4d039), 4);
    s := Advance(h, x, 44, 9, 0xd9d4d039, 4, s, a);
    d := Md5Step(F3(a, b, c), d, a, Plus(x[12], 0xe6db99e5), 11);
    s := Advance(h, x, 45, 12, 0xe6db99e5, 11, s, d);
    c := Md5Step(F3(d, a, b), c, d, Plus(x[15], 0x1fa27cf8), 16);
    s := Advance(h, x, 46, 15, 0x1fa27cf8, 16, s, c);
    b := Md5Step(F3(c, d, a), b, c, Plus(x[2], 0xc4ac5665), 23);
    s := Advance(h, x, 47, 2, 0xc4ac5665, 23, s, b);
    r := Registers(a, b, c, d);
  }

  /** The sixteen steps that the code makes with F4. */
  method Round4a(r0: Registers, x: seq<bv32>, ghost h: Registers) returns (r: Registers)
    requires |x| == 16 && r0 == Operations(h, x, 48)
    ensures r == Operations(h, x, 52)
  {
    hide Plus, Md5Step, F1, F2, F3, F4, Operations;
    var a, b, c, d := r0.a, r0.b, r0.c, r0.d;
    ghost var s := r0;
    a := Md5Step(F4(b, c, d), a, b, Plus(x[0], 0xf4292244), 6);
    s := Advance(h, x, 48, 0, 0xf4292244, 6, s, a);
    d := Md5Step(F4(a, b, c), d, a, Plus(x[7], 0x432aff97), 10);
    s := Advance(h, x, 49, 7, 0x432aff97, 10, s, d);
    c := Md5Step(F4(d, a, b), c, d, Plus(x[14], 0xab9423a7), 15);
    s := Advance(h, x, 50, 14, 0xab9423a7, 15, s, c);
    b := Md5Step(F4(c, d, a), b, c, Plus(x[5], 0xfc93a039), 21);
    s := Advance(h, x, 51, 5, 0xfc93a039, 21, s, b);
    r := Registers(a, b, c, d);
  }

  method Round4b(r0: Registers, x: seq<bv32>, ghost h: Registers) returns (r: Registers)
    requires |x| == 16 && r0 == Operations(h, x, 52)
    ensures r == Operations(h, x, 56)
  {
    hide Plus, Md5Step, F1, F2, F3, F4, Operations;
    var a, b, c, d := r0.a, r0.b, r0.c, r0.d;
    ghost var s := r0;
    a := Md5Step(F4(b, c, d), a, b, Plus(x[12], 0x655b59c3), 6);
    s := Advance(h, x, 52, 12, 0x655b59c3, 6, s, a);
    d := Md5Step(F4(a, b, c), d, a, Plus(x[3], 0x8f0ccc92), 10);
    s := Advance(h, x, 53, 3, 0x8f0ccc92, 10, s, d);
    c := Md5Step(F4(d, a, b), c, d, Plus(x[10], 0xffeff47d), 15);
    s := Advance(h, x, 54, 10, 0xffeff47d, 15, s, c);
    b := Md5Step(F4(c, d, a), b, c, Plus(x[1], 0x85845dd1), 21);
    s := Advance(h, x, 55, 1, 0x85845dd1, 21, s, b);
    r := Registers(a, b, c, d);
  }

  method Round4c(r0: Registers, x: seq<bv32>, ghost h: Registers) returns (r: Registers)
    requires |x| == 16 && r0 == Operations(h, x, 56)
    ensures r == Operations(h, x, 60)
  {
    hide Plus, Md5Step, F1, F2, F3, F4, Operations;
    var a, b, c, d := r0.a, r0.b, r0.c, r0.d;
    ghost var s := r0;
    a := Md5Step(F4(b, c, d), a, b, Plus(x[8], 0x6fa87e4f), 6);
    s := Advance(h, x, 56, 8, 0x6fa87e4f, 6, s, a);
    d := Md5Step(F4(a, b, c), d, a, Plus(x[15], 0xfe2ce6e0), 10);
    s := Advance(h, x, 57, 15, 0xfe2ce6e0, 10, s, d);
    c := Md5Step(F4(d, a, b), c, d, Plus(x[6], 0xa3014314), 15);
    s := Advance(h, x, 58, 6, 0xa3014314, 15, s, c);
    b := Md5Step(F4(c, d, a), b, c, Plus(x[13], 0x4e0811a1), 21);
    s := Advance(h, x, 59, 13, 0x4e0811a1, 21, s, b);
    r := Registers(a, b, c, d);
  }

  method Round4d(r0: Registers, x: seq<bv32>, ghost h: Registers) returns (r: Registers)
    requires |x| == 16 && r0 == Operations(h, x, 60)
    ensures r == Operations(h, x, 64)
  {
    hide Plus, Md5Step, F1, F2, F3, F4, Operations;
    var a, b, c, d := r0.a, r0.b, r0.c, r0.d;
    ghost var s := r0;
    a := Md5Step(F4(b, c, d), a, b, Plus(x[4], 0xf7537e82), 6);
    s := Advance(h, x, 60, 4, 0xf7537e82, 6, s, a);
    d := Md5Step(F4(a, b, c), d, a, Plus(x[11], 0xbd3af235), 10);
    s := Advance(h, x, 61, 11, 0xbd3af235, 10, s, d);
    c := Md5Step(F4(d, a, b), c, d, Plus(x[2], 0x2ad7d2bb), 15);
    s := Advance(h, x, 62, 2, 0x2ad7d2bb, 15, s, c);
    b := Md5Step(F4(c, d, a), b, c, Plus(x[9], 0xeb86d391), 21);
    s := Advance(h, x, 63, 9, 0xeb86d391, 21, s, b);
    r := Registers(a, b, c, d);
  }

  method Rounds(h: Registers, x: seq<bv32>) returns (r: Registers)
    requires |x| == 16
    ensures r == Operations(h, x, 64)
  {
    assert h == Operations(h, x, 0);
    hide Operations;
    r := Round1a(h, x, h);
    r := Round1b(r, x, h);
    r := Round1c(r, x, h);
    r := Round1d(r, x, h);
    r := Round2a(r, x, h);
    r := Round2b(r, x, h);
    r := Round2c(r, x, h);
    r := Round2d(r, x, h);
    r := Round3a(r, x, h);
    r := Round3b(r, x, h);
    r := Round3c(r, x, h);
    r := Round3d(r, x, h);
    r := Round4a(r, x, h);
    r := Round4b(r, x, h);
    r := Round4c(r, x, h);
    r := Round4d(r, x, h);
  }

  /** MD5Transform on the words of a block. */
  method Transform(buf: array<bv32>, block: Bytes)
    requires buf.Length == 4 && |block| == 64
    modifies buf
    ensures InRegisters(buf[..]) == Compress(InRegisters(old(buf[..])), block)
  {
    hide Plus, Words, Operations;
    var r := Rounds(InRegisters(buf[..]), Words(block));
    buf[0] := Plus(buf[0], r.a);
    buf[1] := Plus(buf[1], r.b);
    buf[2] := Plus(buf[2], r.c);
    buf[3] := Plus(buf[3], r.d);
  }

  function InRegisters(buf: seq<bv32>): Registers
    requires |buf| == 4
  {
    Registers(buf[0], buf[1], buf[2], buf[3])
  }

  // ----- the context ------------------------------------------------------------------

  lemma FoldOfOneMore(m: Bytes, block: Bytes)
    requires |m| % 64 == 0 && |block| == 64
    ensures (|m| + 64) % 64 == 0 && Fold(m + block) == Compress(Fold(m), block)
  {
    var all := m + block;
    assert all[..|all| - 64] == m && all[|all| - 64..] == block;
  }

  /** The two counter words hold the length in bits modulo 2^64. */
  ghost predicate Counts(bits0: nat, bits1: nat, length: nat) {
    bits0 < TWO32 && bits1 < TWO32 && bits0 + TWO32 * bits1 == 8 * length % TWO64
  }

  function BitsLow(bits0: nat, len: nat): nat {
    (bits0 + (len % TWO32) * 8 % TWO32) % TWO32
  }

  function BitsHigh(bits0: nat, bits1: nat, len: nat): nat {
    ((if BitsLow(bits0, len) < bits0 then (bits1 + 1) % TWO32 else bits1) + len / 0x2000_0000 % TWO32) % TWO32
  }

  /** The count is right across the carry from the low word and the wrap of the high one. */
  lemma CountingCarries(bits0: nat, bits1: nat, length: nat, len: nat)
    requires Counts(bits0, bits1, length)
    ensures Counts(BitsLow(bits0, len), BitsHigh(bits0, bits1, len), length + len)
  {
    var low, high := len % 0x2000_0000 * 8, len / 0x2000_0000;
    ShiftedLength(len);
    var carry := if bits0 + low >= TWO32 then 1 else 0;
    assert BitsLow(bits0, len) == bits0 + low - TWO32 * carry;
    var top := bits1 + carry + high;
    WordSum(bits1, carry, high);
    assert BitsHigh(bits0, bits1, len) == top % TWO32;
    HighWordWraps(BitsLow(bits0, len), top);
    SumWraps(8 * length, 8 * len);
  }

  lemma ShiftedLength(len: nat)
    ensures (len % TWO32) * 8 % TWO32 == len % 0x2000_0000 * 8
    ensures 8 * len == len % 0x2000_0000 * 8 + TWO32 * (len / 0x2000_0000)
  {
  }

  lemma WordSum(bits1: nat, carry: nat, high: nat)
    requires bits1 < TWO32 && carry <= 1
    ensures ((if carry == 1 then (bits1 + 1) % TWO32 else bits1) + high % TWO32) % TWO32 == (bits1 + carry + high) % TWO32
  {
  }

  lemma HighWordWraps(low: nat, top: nat)
    requires low < TWO32
    ensures low + TWO32 * (top % TWO32) == (low + TWO32 * top) % TWO64
  {
    assert low + TWO32 * top == low + TWO32 * (top % TWO32) + TWO64 * (top / TWO32);
  }

  lemma SumWraps(a: nat, b: nat)
    ensures (a % TWO64 + b) % TWO64 == (a + b) % TWO64
  {
  }

  /** The low word gives the number of bytes buffered. */
  lemma BufferedCount(bits0: nat, bits1: nat, length: nat)
    requires Counts(bits0, bits1, length)
    ensures bits0 / 8 % 64 == length % 64
    ensures bits0 == 8 * length % TWO32 && bits1 == 8 * length / TWO32 % TWO32
  {
    var q := 8 * length / TWO64;
    assert 8 * length == TWO64 * q + TWO32 * bits1 + bits0;
    SplitBySize(8 * length, TWO32 * q + bits1, bits0);
    assert bits1 == (TWO32 * q + bits1) % TWO32;
    BytesOfBits(length, TWO32 * q + bits1, bits0);
  }

  lemma SplitBySize(n: nat, high: nat, low: nat)
    requires n == TWO32 * high + low && low < TWO32
    ensures n % TWO32 == low && n / TWO32 == high
  {
  }

  lemma BytesOfBits(length: nat, high: nat, low: nat)
    requires 8 * length == TWO32 * high + low
    ensures low / 8 % 64 == length % 64
  {
    assert low / 8 == length - 0x2000_0000 * high;
    assert length % 64 == (64 * (0x80_0000 * high) + low / 8) % 64;
  }

  /** byteReverse: on a little-endian host every word is stored back as it was. */
  method ByteReverse(a: array<bv8>, longs: nat)
    requires 0 < longs && 4 * longs <= a.Length
    modifies a
    ensures a[..] == old(a[..])
  {
    var i := 0;
    while i < longs
      invariant i <= longs && a[..] == old(a[..])
    {
      var word := WordAt(a[..], 4 * i);
      LittleEndianOfWordAt(a[..], 4 * i);
      ghost var before := a[..];
      CopyTo(a, 4 * i, LittleEndian(word));
      assert forall k :: 4 * i <= k < 4 * i + 4 ==> before[4 * i..4 * i + 4][k - 4 * i] == before[k];
      i := i + 1;
    }
  }

  class Context {
    const buf: array<bv32>
    var bits0: nat
    var bits1: nat
    const input: array<bv8>    // in
    ghost var message: Bytes   // everything passed to Update since Init

    ghost predicate Valid()
      reads this, buf, input
    {
      && buf.Length == 4 && input.Length == 64
      && Counts(bits0, bits1, |message|)
      && InRegisters(buf[..]) == Fold(Whole(message))
      && input[..|message| % 64] == Rest(message)
    }

    /** MD5Init */
    constructor ()
      ensures Valid() && message == [] && fresh(buf) && fresh(input)
    {
      buf := new bv32[4];
      input := new bv8[64];
      bits0, bits1, message := 0, 0, [];
      new;
      buf[0], buf[1], buf[2], buf[3] := 0x67452301, 0xefcdab89, 0x98badcfe, 0x10325476;
    }

    /** byteReverse and MD5Transform on the full input block. */
    method ProcessInput()
      requires buf.Length == 4 && input.Length == 64
      modifies buf, input
      ensures input[..] == old(input[..])
      ensures InRegisters(buf[..]) == Compress(InRegisters(old(buf[..])), old(input[..]))
    {
      ByteReverse(input, 16);
      Transform(buf, input[..]);
    }

    /** Update bitcount; the result is the number of bytes already in the input block. */
    method CountBits(len: nat) returns (t: nat)
      requires Counts(bits0, bits1, |message|)
      modifies this`bits0, this`bits1
      ensures Counts(bits0, bits1, |message| + len) && t == |message| % 64
    {
      CountingCarries(bits0, bits1, |message|, len);
      BufferedCount(bits0, bits1, |message|);
      t := bits0;
      bits0 := (t + (len % TWO32) * 8 % TWO32) % TWO32;
      if bits0 < t {
        bits1 := (bits1 + 1) % TWO32;
      }
      bits1 := (bits1 + len / 0x2000_0000 % TWO32) % TWO32;
      t := t / 8 % 64;
    }

    /** The leading chunk that completes the buffered block. */
    method FillBlock(t: nat, data: Bytes) returns (room: nat)
      requires buf.Length == 4 && input.Length == 64
      requires 0 < t == |message| % 64 && 64 - t <= |data|
      requires InRegisters(buf[..]) == Fold(Whole(message)) && input[..t] == Rest(message)
      modifies buf, input
      ensures room == 64 - t && (|message| + room) % 64 == 0
      ensures InRegisters(buf[..]) == Fold(message + data[..room])
    {
      hide Fold, Compress;
      room := 64 - t;
      ghost var kept := input[..t];
      assert forall k :: 0 <= k < t ==> input[k] == kept[k];
      CopyTo(input, t, data[..room]);
      BlockIsFilled(message, data, t, input[..]);
      FoldOfOneMore(Whole(message), input[..]);
      ProcessInput();
    }

    /** Whole blocks of data are folded in directly; fewer than 64 bytes are left. */
    method ProcessBlocks(data: Bytes, start: nat) returns (offset: nat)
      requires buf.Length == 4 && input.Length == 64
      requires start <= |data| && (|message| + start) % 64 == 0
      requires InRegisters(buf[..]) == Fold(message + data[..start])
      modifies buf, input
      ensures offset <= |data| < offset + 64 && (|message| + offset) % 64 == 0
      ensures InRegisters(buf[..]) == Fold(message + data[..offset])
    {
      hide Fold, Compress;
      offset := start;
      while |data| - offset >= 64
        invariant offset <= |data| && (|message| + offset) % 64 == 0
        invariant InRegisters(buf[..]) == Fold(message + data[..offset])
      {
        CopyTo(input, 0, data[offset..offset + 64]);
        assert message + data[..offset + 64] == message + data[..offset] + input[..];
        FoldOfOneMore(message + data[..offset], input[..]);
        ProcessInput();
        offset := offset + 64;
      }
    }

    /** What is left of the data waits in the buffer. */
    method KeepRest(data: Bytes, offset: nat)
      requires input.Length == 64 && offset <= |data| < offset + 64
      modifies input
      ensures input[..|data| - offset] == data[offset..]
    {
      CopyTo(input, 0, data[offset..]);
    }

    /** MD5Update */
    method Update(data: Bytes)
      requires Valid()
      modifies this, buf, input
      ensures Valid() && message == old(message) + data
    {
      hide Counts, Fold, Compress;
      var len := |data|;
      var t := CountBits(len);
      ghost var m := message;
      var offset := 0;
      if t != 0 {
        var room := 64 - t;
        if len < room {
          ghost var kept := input[..t];
          assert forall k :: 0 <= k < t ==> input[k] == kept[k];
          CopyTo(input, t, data);
          ShortChunk(m, data, input[..]);
          message := m + data;
          return;
        }
        offset := FillBlock(t, data);
      } else {
        assert Whole(m) == m + data[..0];
      }
      offset := ProcessBlocks(data, offset);
      SplitAt(m, data, offset);
      hide Whole, Rest;
      KeepRest(data, offset);
      message := m + data;
    }

    /** No room for the length: the padding ends this block and takes 56 bytes of another one. */
    method PadTwoBlocks(at: nat)
      requires buf.Length == 4 && input.Length == 64 && 56 <= at == |message| % 64
      requires InRegisters(buf[..]) == Fold(Whole(message))
      requires input[..at] == Rest(message) && input[at] == 0x80
      modifies buf, input
      ensures input[..56] == Rest(Padded(message)) && InRegisters(buf[..]) == Fold(Whole(Padded(message)))
    {
      hide Fold, Compress, Padded;
      ghost var kept := input[..at];
      assert forall k :: 0 <= k < at ==> input[k] == kept[k];
      CopyTo(input, at + 1, Repeat<bv8>(0, 64 - 1 - at));
      FirstPaddedBlock(message, input[..]);
      FoldOfOneMore(Whole(message), input[..]);
      ProcessInput();
      CopyTo(input, 0, Repeat<bv8>(0, 56));
      assert input[..56] == Repeat<bv8>(0, 56);
    }

    /** Room for the length: all of the padding lies in this block. */
    method PadOneBlock(at: nat)
      requires input.Length == 64 && at == |message| % 64 < 56
      requires input[..at] == Rest(message) && input[at] == 0x80
      modifies input
      ensures input[..56] == Rest(Padded(message)) && Whole(Padded(message)) == Whole(message)
    {
      hide Padded;
      ghost var kept := input[..at];
      assert forall k :: 0 <= k < at ==> input[k] == kept[k];
      CopyTo(input, at + 1, Repeat<bv8>(0, 64 - 1 - at - 8));
      OnlyPaddedBlock(message, input[..]);
      assert input[..56] == input[..][..56];
    }

    /** The padding up to the length: 0x80, zeros, and a transform when they fill the block. */
    method PadInput()
      requires Valid()
      modifies buf, input
      ensures input[..56] == Rest(Padded(message)) && InRegisters(buf[..]) == Fold(Whole(Padded(message)))
    {
      var at := bits0 / 8 % 64;
      assert at == |message| % 64 by { BufferedCount(bits0, bits1, |message|); }
      hide Counts, Fold, Compress, Padded, Rest, Whole;
      ghost var kept := input[..at];
      input[at] := 0x80;
      assert input[..at] == kept;
      var count := 64 - 1 - at;
      if count < 8 {
        PadTwoBlocks(at);
      } else {
        PadOneBlock(at);
      }
      ghost var padded := input[..];
      ByteReverse(input, 14);
      assert input[..56] == padded[..56];
    }

    /** The counter words, at the end of the padded block. */
    method AppendLength()
      requires input.Length == 64 && Counts(bits0, bits1, |message|)
      requires input[..56] == Rest(Padded(message))
      modifies input
      ensures message + Padding(|message|) == Whole(Padded(message)) + input[..]
    {
      CountersAreLength(bits0, bits1, |message|);
      var low, high := LittleEndian(Word(bits0)), LittleEndian(Word(bits1));
      hide Counts, LittleEndian, LengthBytes, Word, Padding, Padded, Rest, Whole;
      ghost var start := input[..56];
      assert forall k :: 0 <= k < 56 ==> input[k] == start[k];
      CopyTo(input, 56, low);
      CopyTo(input, 60, high);
      LengthIsAppended(message, low, high, input[..]);
    }

    /** The registers as they lie in memory. */
    method StoreRegisters() returns (digest: Bytes)
      requires buf.Length == 4
      ensures digest == Output(InRegisters(buf[..]))
    {
      hide LittleEndian;
      var image := new bv8[16];
      CopyTo(image, 0, Output(InRegisters(buf[..])));
      assert image[..] == Output(InRegisters(buf[..]));
      ByteReverse(image, 4);
      digest := image[..];
    }

    method Clear()
      requires buf.Length == 4 && input.Length == 64
      modifies this`bits0, this`bits1, buf, input
      ensures bits0 == 0 && bits1 == 0 && buf[..] == [0, 0, 0, 0] && input[..] == Repeat<bv8>(0, 64)
    {
      buf[0], buf[1], buf[2], buf[3] := 0, 0, 0, 0;
      bits0, bits1 := 0, 0;
      CopyTo(input, 0, Repeat<bv8>(0, 64));
      assert input[..] == Repeat<bv8>(0, 64);
    }

    /** MD5Final. The context is cleared, so it must not be used again before an Init. */
    method Final() returns (digest: Bytes)
      requires Valid()
      modifies this, buf, input
      ensures digest == Digest(old(message))
      ensures bits0 == 0 && bits1 == 0 && buf[..] == [0, 0, 0, 0] && input[..] == Repeat<bv8>(0, 64)
    {
      PadInput();
      AppendLength();
      hide Fold, Output, Padding, Padded, Whole, Compress;
      FoldOfOneMore(Whole(Padded(message)), input[..]);
      Transform(buf, input[..]);
      digest := StoreRegisters();
      Clear();
    }

    /** The memcpy of a context. */
    constructor CopyOf(context: Context)
      requires context.Valid()
      ensures Valid() && message == context.message && fresh(buf) && fresh(input)
    {
      hide Counts, Fold, Rest;
      buf := new bv32[4];
      input := new bv8[64];
      bits0, bits1, message := context.bits0, context.bits1, context.message;
      new;
      buf[0], buf[1], buf[2], buf[3] := context.buf[0], context.buf[1], context.buf[2], context.buf[3];
      assert buf[..] == context.buf[..];
      CopyTo(input, 0, context.input[..]);
      assert input[..] == context.input[..];
      assert input[..|message| % 64] == input[..][..|message| % 64];
    }

    /** MD5IntermediateFinal: the digest so far, from a copy, so that updating can go on. */
    method IntermediateFinal() returns (digest: Bytes)
      requires Valid()
      ensures digest == Digest(message)
    {
      var copy := new Context.CopyOf(this);
      digest := copy.Final();
    }
  }

  /** MD5Sum */
  method Sum(data: Bytes) returns (digest: Bytes)
    ensures digest == Digest(data)
  {
    var context := new Context();
    context.Update(data);
    assert context.message == data;
    digest := context.Final();
  }

  /** A message that arrives in chunks. */
  method SumOfChunks(chunks: seq<Bytes>) returns (digest: Bytes)
    ensures digest == Digest(Joined(chunks))
  {
    hide Digest, Joined;
    NothingJoined();
    var context := new Context();
    var i := 0;
    assert chunks[0..] == chunks;
    while i < |chunks|
      invariant i <= |chunks| && context.Valid() && fresh(context) && fresh(context.buf) && fresh(context.input)
      invariant context.message + Joined(chunks[i..]) == Joined(chunks)
    {
      JoinedFrom(context.message, chunks, i);
      context.Update(chunks[i]);
      i := i + 1;
    }
    assert chunks[i..] == [];
    assert context.message + [] == context.message;
    digest := context.Final();
  }

  lemma JoinedFrom(m: Bytes, chunks: seq<Bytes>, i: nat)
    requires i < |chunks|
    ensures m + Joined(chunks[i..]) == m + chunks[i] + Joined(chunks[i + 1..])
  {
    assert chunks[i..][1..] == chunks[i + 1..];
  }

  lemma NothingJoined()
    ensures Joined([]) == []
  {
  }

  function Joined(chunks: seq<Bytes>): Bytes {
    if chunks == [] then [] else chunks[0] + Joined(chunks[1..])
  }

  lemma CountersAreLength(bits0: nat, bits1: nat, length: nat)
    requires Counts(bits0, bits1, length)
    ensures bits0 < TWO32 && bits1 < TWO32
    ensures LengthBytes(length) == LittleEndian(Word(bits0)) + LittleEndian(Word(bits1))
  {
    hide LittleEndian, Word;
    BufferedCount(bits0, bits1, length);
  }

  lemma BlockIsFilled(m: Bytes, data: Bytes, t: nat, block: Bytes)
    requires t == |m| % 64 && 0 < t && 64 - t <= |data| && |block| == 64
    requires forall k :: 0 <= k < t ==> block[k] == Rest(m)[k]
    requires forall k :: t <= k < 64 ==> block[k] == data[k - t]
    ensures m + data[..64 - t] == Whole(m) + block
  {
    assert block == Rest(m) + data[..64 - t];
  }

  lemma ShortChunk(m: Bytes, data: Bytes, block: Bytes)
    requires |m| % 64 + |data| < 64 == |block|
    requires forall k :: 0 <= k < |m| % 64 ==> block[k] == Rest(m)[k]
    requires forall k :: |m| % 64 <= k < |m| % 64 + |data| ==> block[k] == data[k - |m| % 64]
    ensures |m + data| % 64 == |m| % 64 + |data|
    ensures Whole(m + data) == Whole(m) && block[..|m + data| % 64] == Rest(m + data)
  {
    assert Rest(m + data) == Rest(m) + data;
  }

  lemma SplitAt(m: Bytes, data: Bytes, offset: nat)
    requires offset <= |data| < offset + 64 && (|m| + offset) % 64 == 0
    ensures |m + data| % 64 == |data| - offset
    ensures Whole(m + data) == m + data[..offset] && Rest(m + data) == data[offset..]
  {
  }

  // ----- the padding ------------------------------------------------------------------

  lemma FirstPaddedBlock(m: Bytes, block: Bytes)
    requires 56 <= |m| % 64 && |block| == 64
    requires forall k :: 0 <= k < |m| % 64 ==> block[k] == Rest(m)[k]
    requires block[|m| % 64] == 0x80
    requires forall k :: |m| % 64 < k < 64 ==> block[k] == 0
    ensures Whole(Padded(m)) == Whole(m) + block && Rest(Padded(m)) == Repeat<bv8>(0, 56)
  {
    var r := |m| % 64;
    assert block == Rest(m) + [0x80] + Repeat<bv8>(0, 63 - r);
    assert Repeat<bv8>(0, PadZeros(|m|)) == Repeat<bv8>(0, 63 - r) + Repeat<bv8>(0, 56);
    assert Padded(m) == Whole(m) + block + Repeat<bv8>(0, 56);
  }

  lemma OnlyPaddedBlock(m: Bytes, block: Bytes)
    requires |m| % 64 < 56 && |block| == 64
    requires forall k :: 0 <= k < |m| % 64 ==> block[k] == Rest(m)[k]
    requires block[|m| % 64] == 0x80
    requires forall k :: |m| % 64 < k < 56 ==> block[k] == 0
    ensures Whole(Padded(m)) == Whole(m) && Rest(Padded(m)) == block[..56]
  {
    var r := |m| % 64;
    assert block[..56] == Rest(m) + [0x80] + Repeat<bv8>(0, 55 - r);
    assert Padded(m) == Whole(m) + block[..56];
  }

  lemma LengthIsAppended(m: Bytes, low: Bytes, high: Bytes, block: Bytes)
    requires |block| == 64 && |low| == 4 && |high| == 4 && LengthBytes(|m|) == low + high
    requires forall k :: 0 <= k < 56 ==> block[k] == Rest(Padded(m))[k]
    requires forall k :: 56 <= k < 60 ==> block[k] == low[k - 56]
    requires forall k :: 60 <= k < 64 ==> block[k] == high[k - 60]
    ensures m + Padding(|m|) == Whole(Padded(m)) + block
  {
    hide LengthBytes, PadZeros;
    assert block == Rest(Padded(m)) + LengthBytes(|m|);
    assert m + Padding(|m|) == Padded(m) + LengthBytes(|m|);
  }
}
