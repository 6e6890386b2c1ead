/**
  base/sha1_portable.cc: SHA-1, byte by byte, over a schedule W that shares its storage with
  the block M.

  The first part states the algorithm as FIPS 180-3 does, on a whole message: padding
  (section 5.1.1), the functions and constants (4.1.1 and 4.2.1) and the computation (6.1.2).
  The second part is the code, on a little-endian host, proved to compute the same.
*/
module SHA1 {
  import opened Common
  import opened Hashing

  // ----- FIPS 180-3 -------------------------------------------------------------------

  datatype Registers = Registers(a: bv32, b: bv32, c: bv32, d: bv32, e: bv32)

  const INITIAL := Registers(0x67452301, 0xefcdab89, 0x98badcfe, 0x10325476, 0xc3d2e1f0)

  function Ch(x: bv32, y: bv32, z: bv32): bv32 { (x & y) ^ (!x & z) }
  function Parity(x: bv32, y: bv32, z: bv32): bv32 { x ^ y ^ z }
  function Maj(x: bv32, y: bv32, z: bv32): bv32 { (x & y) ^ (x & z) ^ (y & z) }

  function LogicalFunction(t: nat, x: bv32, y: bv32, z: bv32): bv32 {
    if t < 20 then Ch(x, y, z) else if t < 40 then Parity(x, y, z) else if t < 60 then Maj(x, y, z) else Parity(x, y, z)
  }

  function Constant(t: nat): bv32 {
    if t < 20 then 0x5a827999 else if t < 40 then 0x6ed9eba1 else if t < 60 then 0x8f1bbcdc else 0xca62c1d6
  }

  /** Four bytes as a word, highest first. */
  function BigEndianWord(b: Bytes, i: nat): bv32
    requires i + 4 <= |b|
  {
    (b[i] as bv32 << 24) | (b[i + 1] as bv32 << 16) | (b[i + 2] as bv32 << 8) | b[i + 3] as bv32
  }

  function BigEndian(w: bv32): (b: Bytes)
    ensures |b| == 4
  {
    [((w >> 24) & 0xff) as bv8, ((w >> 16) & 0xff) as bv8, ((w >> 8) & 0xff) as bv8, (w & 0xff) as bv8]
  }

  /** The exclusive or of four words; it has a name so that proofs can leave it uninterpreted. */
  function Xor(x: bv32, y: bv32, z: bv32, w: bv32): bv32 { x ^ y ^ z ^ w }

  /** W_t */
  function Schedule(block: Bytes, t: nat): bv32
    requires |block| == 64
  {
    if t < 16 then BigEndianWord(block, 4 * t)
    else Rotate(Xor(Schedule(block, t - 3), Schedule(block, t - 8), Schedule(block, t - 14), Schedule(block, t - 16)), 1)
  }

  /** Step t of the computation, with the word that the schedule has for it. */
  function Step(r: Registers, t: nat, w: bv32): Registers {
    var T := Plus(Plus(Plus(Plus(Rotate(r.a, 5), LogicalFunction(t, r.b, r.c, r.d)), r.e), Constant(t)), w);
    Registers(T, r.a, Rotate(r.b, 30), r.c, r.d)
  }

  function Steps(h: Registers, block: Bytes, n: nat): Registers
    requires |block| == 64
  {
    if n == 0 then h else Step(Steps(h, block, n - 1), n - 1, Schedule(block, n - 1))
  }

  function Compress(h: Registers, block: Bytes): Registers
    requires |block| == 64
  {
    var r := Steps(h, block, 80);
    Registers(Plus(r.a, h.a), Plus(r.b, h.b), Plus(r.c, h.c), Plus(r.d, h.d), Plus(r.e, h.e))
  }

  function Fold(message: Bytes): Registers
    requires |message| % 64 == 0
  {
    if message == [] then INITIAL
    else Compress(Fold(message[..|message| - 64]), message[|message| - 64..])
  }

  /** n in k bytes, highest first. */
  function InBytes(n: nat, k: nat): (b: Bytes)
    ensures |b| == k
  {
    if k == 0 then [] else InBytes(n / 0x100, k - 1) + [(n % 0x100) as bv8]
  }

  /** The message padded to whole blocks: its length in bits is the last 64 of them. */
  function PaddedMessage(m: Bytes): (p: Bytes)
    ensures |p| % 64 == 0
  {
    Padded(m) + InBytes(8 * |m| % TWO64, 8)
  }

  function Output(r: Registers): Bytes {
    BigEndian(r.a) + BigEndian(r.b) + BigEndian(r.c) + BigEndian(r.d) + BigEndian(r.e)
  }

  function Digest(message: Bytes): Bytes {
    Output(Fold(PaddedMessage(message)))
  }

  // ----- the helpers of the code ---------------------------------------------------------

  function F(t: nat, B: bv32, C: bv32, D: bv32): bv32 {
    if t < 20 then (B & C) | (!B & D)
    else if t < 40 then B ^ C ^ D
    else if t < 60 then (B & C) | (B & D) | (C & D)
    else B ^ C ^ D
  }

  function S(n: nat, X: bv32): bv32
    requires 0 < n < 32
  {
    (X << n) | (X >> (32 - n))
  }

  function K(t: nat): bv32 {
    if t < 20 then 0x5a827999
    else if t < 40 then 0x6ed9eba1
    else if t < 60 then 0x8f1bbcdc
    else 0xca62c1d6
  }

  /** swapends */
  function Swapped(t: bv32): bv32 {
    (t >> 24) | ((t >> 8) & 0xff00) | ((t & 0xff00) << 8) | (t << 24)
  }

  lemma {:induction false} ChoiceRaw(x: bv32, y: bv32, z: bv32)
    ensures (x & y) | (!x & z) == (x & y) ^ (!x & z)
  {
  }

  lemma {:induction false} MajorityRaw(x: bv32, y: bv32, z: bv32)
    ensures (x & y) | (x & z) | (y & z) == (x & y) ^ (x & z) ^ (y & z)
  {
  }

  lemma {:induction false} FIsLogicalFunction(t: nat, x: bv32, y: bv32, z: bv32)
    ensures F(t, x, y, z) == LogicalFunction(t, x, y, z)
  {
    if t < 20 {
      calc {
        F(t, x, y, z);
        (x & y) | (!x & z);
        { ChoiceRaw(x, y, z); }
        (x & y) ^ (!x & z);
        Ch(x, y, z);
      }
    } else if 40 <= t < 60 {
      calc {
        F(t, x, y, z);
        (x & y) | (x & z) | (y & z);
        { MajorityRaw(x, y, z); }
        (x & y) ^ (x & z) ^ (y & z);
        Maj(x, y, z);
      }
    }
  }

  lemma {:induction false} SwapRaw(b0: bv8, b1: bv8, b2: bv8, b3: bv8)
    ensures var w := (((b3 as bv32 << 8) | b2 as bv32) << 16) | ((b1 as bv32 << 8) | b0 as bv32);
            (w >> 24) | ((w >> 8) & 0xff00) | ((w & 0xff00) << 8) | (w << 24)
            == (b0 as bv32 << 24) | (b1 as bv32 << 16) | (b2 as bv32 << 8) | b3 as bv32
  {
  }

  /** A word read from memory and swapped is the word that its bytes are, highest first. */
  lemma {:induction false} SwappedWordAt(b: Bytes, i: nat)
    requires i + 4 <= |b|
    ensures Swapped(WordAt(b, i)) == BigEndianWord(b, i)
  {
    SwapRaw(b[i], b[i + 1], b[i + 2], b[i + 3]);
  }

  lemma {:induction false} SwapBytesRaw(w: bv32)
    ensures var s := (w >> 24) | ((w >> 8) & 0xff00) | ((w & 0xff00) << 8) | (w << 24);
            && (s & 0xff) as bv8 == ((w >> 24) & 0xff) as bv8 && ((s >> 8) & 0xff) as bv8 == ((w >> 16) & 0xff) as bv8
            && ((s >> 16) & 0xff) as bv8 == ((w >> 8) & 0xff) as bv8 && ((s >> 24) & 0xff) as bv8 == (w & 0xff) as bv8
  {
  }

  /** A swapped word lies in memory highest byte first. */
  lemma {:induction false} MemoryOfSwapped(w: bv32)
    ensures LittleEndian(Swapped(w)) == BigEndian(w)
  {
    SwapBytesRaw(w);
  }

  // ----- the schedule in place -----------------------------------------------------------

  /** Words up to the n-th of the schedule lie in memory. */
  ghost predicate Scheduled(memory: Bytes, block: Bytes, n: nat)
    requires |memory| == 320 && |block| == 64 && n <= 80
  {
    forall k :: 0 <= k < n ==> WordAt(memory, 4 * k) == Schedule(block, k)
  }

  lemma {:induction false} WordAtAgrees(a: Bytes, b: Bytes, i: nat)
    requires i + 4 <= |a| == |b| && a[i] == b[i] && a[i + 1] == b[i + 1] && a[i + 2] == b[i + 2] && a[i + 3] == b[i + 3]
    ensures WordAt(a, i) == WordAt(b, i)
  {
  }

  method StoreWord(memory: array<bv8>, t: nat, w: bv32)
    requires memory.Length == 320 && t < 80
    modifies memory
    ensures WordAt(memory[..], 4 * t) == w
    ensures forall i :: 0 <= i < 320 && !(4 * t <= i < 4 * t + 4) ==> memory[i] == old(memory[i])
    ensures forall k :: 0 <= k < 80 && k != t ==> WordAt(memory[..], 4 * k) == WordAt(old(memory[..]), 4 * k)
  {
    hide LittleEndian, WordAt;
    CopyTo(memory, 4 * t, LittleEndian(w));
    WordAtStored(memory[..], t, w);
    forall k | 0 <= k < 80 && k != t ensures WordAt(memory[..], 4 * k) == WordAt(old(memory[..]), 4 * k) {
      WordAtAgrees(memory[..], old(memory[..]), 4 * k);
    }
  }

  lemma {:induction false} WordAtStored(memory: Bytes, t: nat, w: bv32)
    requires |memory| == 320 && t < 80
    requires forall j :: 4 * t <= j < 4 * t + 4 ==> memory[j] == LittleEndian(w)[j - 4 * t]
    ensures WordAt(memory, 4 * t) == w
  {
    hide LittleEndian;
    var b := LittleEndian(w);
    assert memory[4 * t] == b[0] && memory[4 * t + 1] == b[1] && memory[4 * t + 2] == b[2] && memory[4 * t + 3] == b[3];
    WordAtOfLittleEndian(w);
  }

  /** Steps a and b of Process. */
  method MakeSchedule(memory: array<bv8>)
    requires memory.Length == 320
    modifies memory
    ensures Scheduled(memory[..], old(memory[..64]), 80)
  {
    hide Swapped, WordAt, BigEndianWord, Rotate, Xor, S;
    ghost var block := memory[..64];
    var t := 0;
    while t < 16
      invariant t <= 16 && Scheduled(memory[..], block, t)
      invariant forall i :: 4 * t <= i < 64 ==> memory[i] == block[i]
    {
      SwappedInput(memory[..], block, t);
      StoreWord(memory, t, Swapped(WordAt(memory[..], 4 * t)));
      t := t + 1;
    }
    while t < 80
      invariant 16 <= t <= 80 && Scheduled(memory[..], block, t)
    {
      var w := S(1, Xor(WordAt(memory[..], 4 * (t - 3)), WordAt(memory[..], 4 * (t - 8)),
                        WordAt(memory[..], 4 * (t - 14)), WordAt(memory[..], 4 * (t - 16))));
      NextWord(memory[..], block, t);
      StoreWord(memory, t, w);
      t := t + 1;
    }
  }

  lemma {:induction false} SwappedInput(memory: Bytes, block: Bytes, t: nat)
    requires |memory| == 320 && |block| == 64 && t < 16
    requires forall i :: 4 * t <= i < 64 ==> memory[i] == block[i]
    ensures Swapped(WordAt(memory, 4 * t)) == Schedule(block, t)
  {
    hide Swapped, WordAt;
    SwappedWordAt(memory, 4 * t);
  }

  lemma {:induction false} NextWord(memory: Bytes, block: Bytes, t: nat)
    requires |memory| == 320 && |block| == 64 && 16 <= t < 80 && Scheduled(memory, block, t)
    ensures S(1, Xor(WordAt(memory, 4 * (t - 3)), WordAt(memory, 4 * (t - 8)),
                     WordAt(memory, 4 * (t - 14)), WordAt(memory, 4 * (t - 16)))) == Schedule(block, t)
  {
    var a, b, c, d := Schedule(block, t - 3), Schedule(block, t - 8), Schedule(block, t - 14), Schedule(block, t - 16);
    ScheduleGoesOn(block, t);
    RotationIs(Xor(a, b, c, d));
    hide WordAt, Schedule, S, Rotate, Xor;
    assert WordAt(memory, 4 * (t - 3)) == a && WordAt(memory, 4 * (t - 8)) == b;
    assert WordAt(memory, 4 * (t - 14)) == c && WordAt(memory, 4 * (t - 16)) == d;
  }

  lemma {:induction false} ScheduleGoesOn(block: Bytes, t: nat)
    requires |block| == 64 && 16 <= t
    ensures Schedule(block, t)
            == Rotate(Xor(Schedule(block, t - 3), Schedule(block, t - 8), Schedule(block, t - 14), Schedule(block, t - 16)), 1)
  {
    hide Rotate, Xor;
  }

  lemma {:induction false} RotationIs(x: bv32)
    ensures S(1, x) == Rotate(x, 1)
  {
  }

  lemma {:induction false} CodeStep(r: Registers, t: nat, w: bv32)
    ensures Registers(Plus(Plus(Plus(Plus(S(5, r.a), F(t, r.b, r.c, r.d)), r.e), w), K(t)), r.a, S(30, r.b), r.c, r.d)
            == Step(r, t, w)
  {
    assert K(t) == Constant(t);
    hide Plus, Constant, K, F, LogicalFunction;
    FIsLogicalFunction(t, r.b, r.c, r.d);
    var x := Plus(Plus(Rotate(r.a, 5), LogicalFunction(t, r.b, r.c, r.d)), r.e);
    PlusAssociates(x, w, Constant(t));
    PlusCommutes(w, Constant(t));
    PlusAssociates(x, Constant(t), w);
  }

  // ----- the class ------------------------------------------------------------------------

  function InRegisters(h: seq<bv32>): Registers
    requires |h| == 5
  {
    Registers(h[0], h[1], h[2], h[3], h[4])
  }

  lemma {:induction false} FoldOfOneMore(m: Bytes, block: Bytes)
    requires |m| % 64 == 0 && |block| == 64
    ensures |m + block| % 64 == 0 && Fold(m + block) == Compress(Fold(m), block)
  {
    var all := m + block;
    assert all[..|all| - 64] == m && all[|all| - 64..] == block;
  }

  /** The bytes fed so far: whole blocks are in the registers, the others before the cursor. */
  ghost predicate Fed(stream: Bytes, h: Registers, memory: Bytes, cursor: nat) {
    && |memory| == 320 && cursor <= 64 && cursor <= |stream| && (|stream| - cursor) % 64 == 0
    && h == Fold(stream[..|stream| - cursor])
    && forall k :: 0 <= k < cursor ==> memory[k] == stream[|stream| - cursor + k]
  }

  lemma {:induction false} OneMoreFed(stream: Bytes, h: Registers, memory: Bytes, cursor: nat, b: bv8, memory': Bytes)
    requires Fed(stream, h, memory, cursor) && cursor < 64
    requires memory' == memory[cursor := b]
    ensures Fed(stream + [b], h, memory', cursor + 1)
  {
    hide Fold;
    assert (stream + [b])[..|stream| - cursor] == stream[..|stream| - cursor];
  }

  lemma {:induction false} BlockFed(stream: Bytes, h: Registers, memory: Bytes)
    requires Fed(stream, h, memory, 64)
    ensures |stream| % 64 == 0 && Compress(h, memory[..64]) == Fold(stream)
  {
    var before := stream[..|stream| - 64];
    LastBlock(stream, memory);
    FoldOfOneMore(before, memory[..64]);
    hide Fold, Compress;
  }

  lemma {:induction false} LastBlock(stream: Bytes, memory: Bytes)
    requires |memory| == 320 && 64 <= |stream| && forall k :: 0 <= k < 64 ==> memory[k] == stream[|stream| - 64 + k]
    ensures stream == stream[..|stream| - 64] + memory[..64]
  {
  }

  lemma {:induction false} WholeFed(stream: Bytes, memory: Bytes)
    requires |stream| % 64 == 0 && |memory| == 320
    ensures Fed(stream, Fold(stream), memory, 0)
  {
    hide Fold;
    assert stream[..|stream| - 0] == stream;
  }

  class SecureHashAlgorithm {
    const H: array<bv32>
    const storage: array<bv8>    // the union: M is its first 64 bytes, W is all of it
    var A: bv32
    var B: bv32
    var C: bv32
    var D: bv32
    var E: bv32
    var cursor: nat
    var l: nat                   // 64 bits
    ghost var stream: Bytes      // the bytes put into M since Init
    ghost var message: Bytes     // the bytes passed to Update since Init

    ghost predicate Shape() {
      H.Length == 5 && storage.Length == 320
    }

    ghost predicate Feeding()
      reads this, H, storage
    {
      Shape() && Fed(stream, InRegisters(H[..]), storage[..], cursor)
    }

    ghost predicate Valid()
      reads this, H, storage
    {
      Feeding() && cursor < 64 && stream == message && l == 8 * |message| % TWO64
    }

    /** Init */
    constructor ()
      ensures Valid() && message == [] && fresh(H) && fresh(storage)
    {
      H := new bv32[5];
      storage := new bv8[320];
      A, B, C, D, E := 0, 0, 0, 0, 0;
      cursor, l := 0, 0;
      stream, message := [], [];
      new;
      H[0], H[1], H[2], H[3], H[4] := 0x67452301, 0xefcdab89, 0x98badcfe, 0x10325476, 0xc3d2e1f0;
    }

    /** M[cursor++] = b */
    method Put(b: bv8)
      requires Feeding() && cursor < 64
      modifies this`cursor, this`stream, storage
      ensures Feeding() && stream == old(stream) + [b] && cursor == old(cursor) + 1
    {
      OneMoreFed(stream, InRegisters(H[..]), storage[..], cursor, b, storage[..][cursor := b]);
      hide Fed;
      storage[cursor] := b;
      assert storage[..] == old(storage[..])[old(cursor) := b];
      cursor := cursor + 1;
      stream := stream + [b];
    }

    /** Steps c to e. */
    method Rounds(ghost block: Bytes)
      requires Shape() && |block| == 64 && Scheduled(storage[..], block, 80)
      modifies this`A, this`B, this`C, this`D, this`E, H
      ensures InRegisters(H[..]) == Compress(InRegisters(old(H[..])), block)
    {
      hide Plus, Rotate, S, F, K, LogicalFunction, Constant, Schedule, WordAt, Step;
      ghost var h := InRegisters(H[..]);
      A, B, C, D, E := H[0], H[1], H[2], H[3], H[4];
      var t := 0;
      while t < 80
        invariant t <= 80 && Registers(A, B, C, D, E) == Steps(h, block, t) && InRegisters(H[..]) == h
      {
        var w := WordAt(storage[..], 4 * t);
        CodeStep(Registers(A, B, C, D, E), t, w);
        var temp := Plus(Plus(Plus(Plus(S(5, A), F(t, B, C, D)), E), w), K(t));
        E := D;
        D := C;
        C := S(30, B);
        B := A;
        A := temp;
        t := t + 1;
      }
      PlusCommutes(h.a, A);
      PlusCommutes(h.b, B);
      PlusCommutes(h.c, C);
      PlusCommutes(h.d, D);
      PlusCommutes(h.e, E);
      H[0] := Plus(H[0], A);
      H[1] := Plus(H[1], B);
      H[2] := Plus(H[2], C);
      H[3] := Plus(H[3], D);
      H[4] := Plus(H[4], E);
    }

    /** Process, on a full block. */
    method Process()
      requires Feeding() && cursor == 64
      modifies this`A, this`B, this`C, this`D, this`E, this`cursor, H, storage
      ensures Feeding() && cursor == 0
    {
      BlockFed(stream, InRegisters(H[..]), storage[..]);
      ghost var block := storage[..64];
      assert block == storage[..][..64];
      hide Fed, Fold, Compress, Scheduled;
      MakeSchedule(storage);
      Rounds(block);
      cursor := 0;
      WholeFed(stream, storage[..]);
    }

    method Update(data: Bytes)
      requires Valid()
      modifies this, H, storage
      ensures Valid() && message == old(message) + data
    {
      hide Fed;
      var i := 0;
      while i < |data|
        invariant i <= |data| && Valid() && message == old(message) + data[..i]
      {
        Put(data[i]);
        if cursor >= 64 {
          Process();
        }
        EightMoreBits(|message|);
        l := (l + 8) % TWO64;
        message := message + [data[i]];
        i := i + 1;
      }
    }

    /** Pad: the padding up to the length. */
    method PadZeroBytes()
      requires Valid()
      modifies this, H, storage
      ensures Feeding() && cursor == 56 && stream == Padded(message) && message == old(message) && l == old(l)
    {
      hide Fed;
      Put(0x80);
      ghost var zeros := 0;
      if cursor > 64 - 8 {
        while cursor < 64
          invariant 56 < cursor <= 64 && zeros <= 7 && cursor - zeros > 56 && Feeding()
          invariant stream == message + [0x80] + Repeat<bv8>(0, zeros) && message == old(message) && l == old(l)
        {
          OneMoreZero(zeros);
          Put(0);
          zeros := zeros + 1;
        }
        Process();
      }
      ghost var zeros0 := zeros;
      while cursor < 64 - 8
        invariant cursor <= 56 && zeros - zeros0 <= cursor && zeros0 <= 7 && Feeding()
        invariant stream == message + [0x80] + Repeat<bv8>(0, zeros) && message == old(message) && l == old(l)
      {
        OneMoreZero(zeros);
        Put(0);
        zeros := zeros + 1;
      }
      CursorIsRest(stream, InRegisters(H[..]), storage[..], cursor);
      ZerosArePadZeros(|message|, zeros);
    }

    method AppendLength()
      requires Feeding() && cursor == 56 && l < TWO64
      modifies this`cursor, this`stream, storage
      ensures Feeding() && cursor == 64 && stream == old(stream) + InBytes(l, 8)
    {
      hide *;
      EightOctets(l);
      PutFour(Octet(l, 0x100_0000_0000_0000), Octet(l, 0x1_0000_0000_0000), Octet(l, 0x100_0000_0000), Octet(l, 0x1_0000_0000));
      PutFour(Octet(l, 0x100_0000), Octet(l, 0x1_0000), Octet(l, 0x100), Octet(l, 1));
      assert stream == old(stream) + InBytes(l, 8);
    }

    /** Pad */
    method Pad()
      requires Valid()
      modifies this, H, storage
      ensures Feeding() && cursor == 64 && stream == PaddedMessage(old(message))
    {
      hide Fed, Padded, InBytes;
      PadZeroBytes();
      AppendLength();
    }

    method PutFour(b0: bv8, b1: bv8, b2: bv8, b3: bv8)
      requires Feeding() && cursor <= 60
      modifies this`cursor, this`stream, storage
      ensures Feeding() && stream == old(stream) + [b0, b1, b2, b3] && cursor == old(cursor) + 4
    {
      hide Fed;
      Put(b0);
      Put(b1);
      Put(b2);
      Put(b3);
    }

    method SwapEnds()
      requires H.Length == 5
      modifies H
      ensures Memory(H[..]) == Output(InRegisters(old(H[..])))
    {
      hide Swapped;
      ghost var h := H[..];
      var t := 0;
      while t < 5
        invariant t <= 5
        invariant forall k :: 0 <= k < 5 ==> H[k] == if k < t then Swapped(h[k]) else h[k]
      {
        H[t] := Swapped(H[t]);
        t := t + 1;
      }
      MemoryOfAll(h, H[..]);
    }

    /** Final: the words of the digest are left swapped in H. */
    method Final()
      requires Valid()
      modifies this, H, storage
      ensures Shape() && Memory(H[..]) == Digest(old(message))
    {
      Pad();
      hide Fed, Fold, Memory, Output, PaddedMessage;
      Process();
      AllFed(stream, InRegisters(H[..]), storage[..]);
      SwapEnds();
    }
  }

  /** The 20 bytes that an array of words takes in memory. */
  function Memory(h: seq<bv32>): Bytes
    requires |h| == 5
  {
    LittleEndian(h[0]) + LittleEndian(h[1]) + LittleEndian(h[2]) + LittleEndian(h[3]) + LittleEndian(h[4])
  }

  lemma {:induction false} MemoryOfAll(h: seq<bv32>, swapped: seq<bv32>)
    requires |h| == |swapped| == 5 && forall k :: 0 <= k < 5 ==> swapped[k] == Swapped(h[k])
    ensures Memory(swapped) == Output(InRegisters(h))
  {
    hide LittleEndian, BigEndian, Swapped;
    forall k | 0 <= k < 5 ensures LittleEndian(swapped[k]) == BigEndian(h[k]) {
      MemoryOfSwapped(h[k]);
    }
  }

  lemma {:induction false} OneMoreZero(n: nat)
    ensures Repeat<bv8>(0, n) + [0] == Repeat<bv8>(0, n + 1)
  {
  }

  lemma {:induction false} CursorIsRest(stream: Bytes, h: Registers, memory: Bytes, cursor: nat)
    requires Fed(stream, h, memory, cursor) && cursor < 64
    ensures |stream| % 64 == cursor
  {
  }

  lemma {:induction false} ZerosArePadZeros(n: nat, zeros: nat)
    requires (n + 1 + zeros) % 64 == 56 && zeros < 64
    ensures zeros == PadZeros(n)
  {
  }

  lemma {:induction false} AllFed(stream: Bytes, h: Registers, memory: Bytes)
    requires Fed(stream, h, memory, 0)
    ensures |stream| % 64 == 0 && h == Fold(stream)
  {
    assert stream[..|stream| - 0] == stream;
  }

  /** (n >> shift) & 0xff, where d is 1 << shift */
  function Octet(n: nat, d: nat): bv8
    requires d > 0
  {
    ((n / d) % 0x100) as bv8
  }

  lemma {:induction false} EightOctets(n: nat)
    ensures InBytes(n, 8)
            == [Octet(n, 0x100_0000_0000_0000), Octet(n, 0x1_0000_0000_0000), Octet(n, 0x100_0000_0000),
                Octet(n, 0x1_0000_0000), Octet(n, 0x100_0000), Octet(n, 0x1_0000), Octet(n, 0x100), Octet(n, 1)]
  {
    assert n / 1 == n;
    assert InBytes(n / 0x1_0000_0000_0000_0000, 0) == [];
    Quotients(n);
    hide Octet, InBytes;
    OneOctet(n, 1, 8);
    OneOctet(n, 0x100, 7);
    OneOctet(n, 0x1_0000, 6);
    OneOctet(n, 0x100_0000, 5);
    OneOctet(n, 0x1_0000_0000, 4);
    OneOctet(n, 0x100_0000_0000, 3);
    OneOctet(n, 0x1_0000_0000_0000, 2);
    OneOctet(n, 0x100_0000_0000_0000, 1);
  }

  lemma {:induction false} OneOctet(n: nat, d: nat, k: nat)
    requires d > 0 && k > 0
    ensures InBytes(n / d, k) == InBytes(n / d / 0x100, k - 1) + [Octet(n, d)]
  {
  }

  lemma {:induction false} Quotients(n: nat)
    ensures n / 0x100 / 0x100 == n / 0x1_0000 && n / 0x1_0000 / 0x100 == n / 0x100_0000
    ensures n / 0x100_0000 / 0x100 == n / 0x1_0000_0000 && n / 0x1_0000_0000 / 0x100 == n / 0x100_0000_0000
    ensures n / 0x100_0000_0000 / 0x100 == n / 0x1_0000_0000_0000
    ensures n / 0x1_0000_0000_0000 / 0x100 == n / 0x100_0000_0000_0000
    ensures n / 0x100_0000_0000_0000 / 0x100 == n / 0x1_0000_0000_0000_0000
  {
  }

  lemma {:induction false} EightMoreBits(n: nat)
    ensures (8 * n % TWO64 + 8) % TWO64 == 8 * (n + 1) % TWO64
  {
  }

  /** SHA1HashBytes */
  method SHA1HashBytes(data: Bytes) returns (hash: Bytes)
    ensures hash == Digest(data)
  {
    hide Digest, Memory;
    var sha := new SecureHashAlgorithm();
    sha.Update(data);
    assert [] + data == data;
    sha.Final();
    hash := Memory(sha.H[..]);
  }
}
