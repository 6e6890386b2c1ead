/**
  base/pickle.cc and base/pickle.h: a growable, 4-byte aligned binary writer and a
  bounds-checked reader, on a little-endian host with a 64-bit size_t.
*/
module PickleFormat {
  import opened Common
  import opened Bits

  type byte = x: int | 0 <= x < 256
  type Bytes = seq<byte>

  const UINT32_MAX: nat := 0xFFFF_FFFF
  const HEADER: nat := 4          // sizeof(Header)
  const PAYLOAD_UNIT: nat := 64   // kPayloadUnit
  const HEAP_ALIGN: nat := 4096   // kPickleHeapAlign

  // ----- little-endian integers -------------------------------------------------------

  /** The number of values of an unsigned integer of this many bytes. */
  function Range(width: nat): (r: nat)
    ensures r > 0
  {
    if width == 0 then 1 else 256 * Range(width - 1)
  }

  function Store(n: nat, width: nat): (r: Bytes)
    ensures |r| == width
  {
    if width == 0 then [] else [n % 256] + Store(n / 256, width - 1)
  }

  function Load(b: Bytes): (n: nat)
  {
    if b == [] then 0 else b[0] + 256 * Load(b[1..])
  }

  lemma {:induction false} LoadOfStore(n: nat, width: nat)
    requires n < Range(width)
    ensures Load(Store(n, width)) == n
  {
    if width > 0 {
      LoadOfStore(n / 256, width - 1);
      assert Store(n, width)[1..] == Store(n / 256, width - 1);
    }
  }

  lemma {:induction false} LoadInRange(b: Bytes)
    ensures Load(b) < Range(|b|)
  {
    if b != [] { LoadInRange(b[1..]); }
  }

  lemma Range4()
    ensures Range(2) == 0x1_0000 && Range(4) == UINT32_MAX + 1 && Range(8) == SIZE_MAX + 1
  {
    assert Range(2) == 256 * 256;
    assert Range(4) == 256 * 256 * Range(2);
    assert Range(6) == 256 * 256 * Range(4);
  }

  /** The two's complement reading of an unsigned integer of this many bytes. */
  function Signed(n: nat, width: nat): int
    requires n < Range(width)
  {
    if n < (Range(width) + 1) / 2 then n else n - Range(width)
  }

  function Unsigned(i: int, width: nat): (n: nat)
    requires -(Range(width) / 2) <= i < Range(width) / 2
    ensures n < Range(width)
  {
    if i >= 0 then i else i + Range(width)
  }

  lemma SignedOfUnsigned(i: int, width: nat)
    requires width > 0 && -(Range(width) / 2) <= i < Range(width) / 2
    ensures Signed(Unsigned(i, width), width) == i
  {
  }

  // ----- values and their encoding ----------------------------------------------------

  type char16 = x: int | 0 <= x < 0x1_0000

  datatype Value =
    | Bool(b: bool)
    | Int(i: int)
    | UInt16(u: nat)
    | UInt32(u: nat)
    | Int64(i: int)
    | UInt64(u: nat)
    | String(s: Bytes)
    | String16(s16: seq<char16>)
    | Data(s: Bytes)
    | Raw(s: Bytes)    // WriteBytes; the reader is told the length

  /** What a reader must know: the type, and the length of a raw block. */
  datatype Kind =
    | KBool | KInt | KUInt16 | KUInt32 | KInt64 | KUInt64 | KString | KString16 | KData | KRaw(length: int)

  function KindOf(v: Value): Kind {
    match v
    case Bool(_) => KBool
    case Int(_) => KInt
    case UInt16(_) => KUInt16
    case UInt32(_) => KUInt32
    case Int64(_) => KInt64
    case UInt64(_) => KUInt64
    case String(_) => KString
    case String16(_) => KString16
    case Data(_) => KData
    case Raw(s) => KRaw(|s|)
  }

  /** The argument has the C++ type, and its byte length fits in an int. */
  predicate Writable(v: Value) {
    match v
    case Bool(_) => true
    case Int(i) => -0x8000_0000 <= i <= INT_MAX
    case UInt16(u) => u < 0x1_0000
    case UInt32(u) => u <= UINT32_MAX
    case Int64(i) => -0x8000_0000_0000_0000 <= i < 0x8000_0000_0000_0000
    case UInt64(u) => u <= SIZE_MAX
    case String(s) => |s| <= INT_MAX
    case String16(s16) => 2 * |s16| <= INT_MAX
    case Data(s) => |s| <= INT_MAX
    case Raw(s) => |s| <= INT_MAX
  }

  function Units(s16: seq<char16>): (r: Bytes)
    ensures |r| == 2 * |s16|
  {
    if s16 == [] then [] else Store(s16[0], 2) + Units(s16[1..])
  }

  function UnitsBack(b: Bytes): (r: seq<char16>)
    requires |b| % 2 == 0
    ensures |r| == |b| / 2
  {
    if b == [] then []
    else
      assert Load(b[..2]) < 0x1_0000 by { LoadInRange(b[..2]); Range4(); }
      [Load(b[..2])] + UnitsBack(b[2..])
  }

  lemma {:induction false} UnitsRoundTrip(s16: seq<char16>)
    ensures UnitsBack(Units(s16)) == s16
  {
    if s16 != [] {
      UnitsRoundTrip(s16[1..]);
      Range4();
      LoadOfStore(s16[0], 2);
      assert Units(s16)[..2] == Store(s16[0], 2) && Units(s16)[2..] == Units(s16[1..]);
    }
  }

  function Word(i: int): (r: Bytes)
    requires -0x8000_0000 <= i <= INT_MAX
    ensures |r| == 4
  {
    Range4();
    Store(Unsigned(i, 4), 4)
  }

  /** The blocks that the Write method of a value appends, each to be padded. */
  function Blocks(v: Value): seq<Bytes>
    requires Writable(v)
  {
    match v
    case Bool(b) => [Word(if b then 1 else 0)]
    case Int(i) => [Word(i)]
    case UInt16(u) => [Store(u, 2)]
    case UInt32(u) => [Store(u, 4)]
    case Int64(i) => Range4(); [Store(Unsigned(i, 8), 8)]
    case UInt64(u) => [Store(u, 8)]
    case String(s) => [Word(|s|), s]
    case String16(s16) => [Word(|s16|), Units(s16)]
    case Data(s) => [Word(|s|), s]
    case Raw(s) => [s]
  }

  /** A block rounded up to 4 bytes with zeros. */
  function Aligned(b: Bytes): (r: Bytes)
    requires |b| <= UINT32_MAX
    ensures |r| == Align(|b|, 4)
  {
    b + Repeat<byte>(0, Align(|b|, 4) - |b|)
  }

  predicate Small(blocks: seq<Bytes>) {
    forall i :: 0 <= i < |blocks| ==> |blocks[i]| <= UINT32_MAX
  }

  /** The payload after these blocks have been written. */
  function Concat(blocks: seq<Bytes>): (r: Bytes)
    requires Small(blocks)
    ensures |r| % 4 == 0
  {
    if blocks == [] then [] else Aligned(blocks[0]) + Concat(blocks[1..])
  }

  function AllBlocks(vs: seq<Value>): (r: seq<Bytes>)
    requires forall i :: 0 <= i < |vs| ==> Writable(vs[i])
    ensures Small(r)
  {
    if vs == [] then [] else Blocks(vs[0]) + AllBlocks(vs[1..])
  }

  // ----- reading ----------------------------------------------------------------------

  /** PickleIterator: the payload and read_index_; end_index_ is the payload's length. */
  datatype Cursor = Cursor(payload: Bytes, index: nat)

  predicate ValidCursor(c: Cursor) { c.index <= |c.payload| <= UINT32_MAX }

  /** Advance(size): never past the end. */
  function Advance(c: Cursor, size: nat): (r: Cursor)
    requires ValidCursor(c) && size <= UINT32_MAX
    ensures ValidCursor(r) && r.payload == c.payload && c.index <= r.index
  {
    var aligned := Align(size, 4);
    c.(index := if |c.payload| - c.index < aligned then |c.payload| else c.index + aligned)
  }

  /** GetReadPointerAndAdvance(num_bytes): the bytes at the returned pointer. */
  function Take(c: Cursor, n: int): (r: (Option<Bytes>, Cursor))
    requires ValidCursor(c)
    ensures ValidCursor(r.1) && r.1.payload == c.payload && c.index <= r.1.index
    ensures r.0.Some? <==> 0 <= n <= |c.payload| - c.index
    ensures r.0.Some? ==> r.0.value == c.payload[c.index..c.index + n]
    ensures r.0.None? ==> r.1.index == |c.payload|
  {
    if n < 0 || |c.payload| - c.index < n then (None, c.(index := |c.payload|))
    else (Some(c.payload[c.index..c.index + n]), Advance(c, n))
  }

  /** The conversion of an int64 to int. */
  function ToInt32(n: int): (r: int)
    ensures -0x8000_0000 <= r <= INT_MAX
    ensures -0x8000_0000 <= n <= INT_MAX ==> r == n
  {
    var m := n % 0x1_0000_0000;
    if m <= INT_MAX then m else m - 0x1_0000_0000
  }

  /** GetReadPointerAndAdvance(num_elements, size_element); on overflow nothing moves. */
  function TakeElements(c: Cursor, count: int, size: nat): (r: (Option<Bytes>, Cursor))
    requires ValidCursor(c)
    ensures ValidCursor(r.1) && r.1.payload == c.payload && c.index <= r.1.index
    ensures r.0.Some? ==> 0 <= count * size <= |c.payload| - c.index && r.0.value == c.payload[c.index..c.index + count * size]
    ensures 0 <= count * size <= |c.payload| - c.index && count * size <= INT_MAX ==> r.0.Some? && r == Take(c, count * size)
  {
    if count * size != ToInt32(count * size) then (None, c) else Take(c, ToInt32(count * size))
  }

  function ReadWord(c: Cursor): (r: (Option<int>, Cursor))
    requires ValidCursor(c)
    ensures ValidCursor(r.1) && r.1.payload == c.payload && c.index <= r.1.index
  {
    var (b, c1) := Take(c, 4);
    match b
    case None => (None, c1)
    case Some(b) => LoadInRange(b); (Some(Signed(Load(b), 4)), c1)
  }

  function Read(c: Cursor, k: Kind): (r: (Option<Value>, Cursor))
    requires ValidCursor(c)
    ensures ValidCursor(r.1) && r.1.payload == c.payload && c.index <= r.1.index
  {
    match k
    case KBool =>
      var (b, c1) := Take(c, 1);
      (if b.Some? then Some(Bool(b.value[0] != 0)) else None, c1)
    case KInt =>
      var (i, c1) := ReadWord(c);
      (if i.Some? then Some(Int(i.value)) else None, c1)
    case KUInt16 =>
      var (b, c1) := Take(c, 2);
      (if b.Some? then Some(UInt16(Load(b.value))) else None, c1)
    case KUInt32 =>
      var (b, c1) := Take(c, 4);
      (if b.Some? then Some(UInt32(Load(b.value))) else None, c1)
    case KInt64 =>
      var (b, c1) := Take(c, 8);
      (if b.Some? then LoadInRange(b.value); Some(Int64(Signed(Load(b.value), 8))) else None, c1)
    case KUInt64 =>
      var (b, c1) := Take(c, 8);
      (if b.Some? then Some(UInt64(Load(b.value))) else None, c1)
    case KString =>
      var (i, c1) := ReadWord(c);
      if i.None? then (None, c1)
      else
        var (b, c2) := Take(c1, i.value);
        (if b.Some? then Some(String(b.value)) else None, c2)
    case KString16 =>
      var (i, c1) := ReadWord(c);
      if i.None? then (None, c1)
      else
        var (b, c2) := TakeElements(c1, i.value, 2);
        (if b.Some? then Some(String16(UnitsBack(b.value))) else None, c2)
    case KData =>
      var (i, c1) := ReadWord(c);
      if i.None? then (None, c1)
      else
        var (b, c2) := Take(c1, i.value);
        (if b.Some? then Some(Data(b.value)) else None, c2)
    case KRaw(length) =>
      var (b, c1) := Take(c, length);
      (if b.Some? then Some(Raw(b.value)) else None, c1)
  }

  /** The position after a sequence of reads, each tried whether or not those before it failed. */
  function AfterReads(c: Cursor, ks: seq<Kind>): (r: Cursor)
    requires ValidCursor(c)
    ensures ValidCursor(r) && r.payload == c.payload && c.index <= r.index
    decreases |ks|
  {
    if ks == [] then c else AfterReads(Read(c, ks[0]).1, ks[1..])
  }

  /** The values of a sequence of reads, if none of them fails. */
  function ReadAll(c: Cursor, ks: seq<Kind>): (r: (Option<seq<Value>>, Cursor))
    requires ValidCursor(c)
    ensures ValidCursor(r.1) && r.1.payload == c.payload && c.index <= r.1.index <= |c.payload|
    ensures r.0.Some? ==> |r.0.value| == |ks| && r.1 == AfterReads(c, ks)
    decreases |ks|
  {
    if ks == [] then (Some([]), c)
    else
      var (v, c1) := Read(c, ks[0]);
      if v.None? then (None, c1)
      else
        var (vs, c2) := ReadAll(c1, ks[1..]);
        (if vs.Some? then Some([v.value] + vs.value) else None, c2)
  }

  // ----- the round trip ---------------------------------------------------------------

  /** The cursor stands on an aligned position with these bytes ahead. */
  ghost predicate Ahead(c: Cursor, bytes: Bytes, rest: Bytes) {
    ValidCursor(c) && c.payload[c.index..] == bytes + rest
  }

  /** Reading n bytes at a padded block that is rounded up like n. */
  lemma TakeFromBlock(c: Cursor, b: Bytes, rest: Bytes, n: nat)
    requires |b| <= UINT32_MAX && Ahead(c, Aligned(b), rest) && n <= |b| && Align(n, 4) == Align(|b|, 4)
    ensures var (r, c1) := Take(c, n);
            && r == Some(b[..n]) && c1.index == c.index + |Aligned(b)| && Ahead(c1, rest, [])
  {
    var p := Aligned(b);
    var c1 := Take(c, n).1;
    assert c.payload[c.index..c.index + n] == c.payload[c.index..][..n] == (p + rest)[..n] == b[..n];
    assert c1.payload[c1.index..] == c.payload[c.index..][|p|..] == rest == rest + [];
  }

  lemma TakeBlock(c: Cursor, b: Bytes, rest: Bytes)
    requires |b| <= UINT32_MAX && Ahead(c, Aligned(b), rest)
    ensures var (r, c1) := Take(c, |b|);
            && r == Some(b) && c1.index == c.index + |Aligned(b)| && Ahead(c1, rest, [])
  {
    TakeFromBlock(c, b, rest, |b|);
    assert b[..|b|] == b;
  }

  lemma ReadWordOfBlock(c: Cursor, i: int, rest: Bytes)
    requires -0x8000_0000 <= i <= INT_MAX && Ahead(c, Aligned(Word(i)), rest)
    ensures var (r, c1) := ReadWord(c);
            r == Some(i) && c1.index == c.index + 4 && Ahead(c1, rest, [])
  {
    Range4();
    TakeBlock(c, Word(i), rest);
    LoadOfStore(Unsigned(i, 4), 4);
    SignedOfUnsigned(i, 4);
  }

  lemma ConcatOfOne(b: Bytes)
    requires |b| <= UINT32_MAX
    ensures Concat([b]) == Aligned(b)
  {
    assert [b][1..] == [];
    assert Aligned(b) + [] == Aligned(b);
  }

  lemma ConcatOfTwo(a: Bytes, b: Bytes)
    requires |a| <= UINT32_MAX && |b| <= UINT32_MAX
    ensures Concat([a, b]) == Aligned(a) + Aligned(b)
  {
    assert [a, b][1..] == [b];
    ConcatOfOne(b);
  }

  lemma {:induction false} ConcatOfConcat(a: seq<Bytes>, b: seq<Bytes>)
    requires Small(a) && Small(b)
    ensures Small(a + b) && Concat(a + b) == Concat(a) + Concat(b)
  {
    if a == [] {
      assert a + b == b;
    } else {
      assert (a + b)[0] == a[0] && (a + b)[1..] == a[1..] + b;
      ConcatOfConcat(a[1..], b);
    }
  }

  /** Reading this kind here recovers v and stops behind what v was written as. */
  ghost predicate Recovers(c: Cursor, v: Value, written: nat, rest: Bytes)
    requires ValidCursor(c)
  {
    var (r, c1) := Read(c, KindOf(v));
    r == Some(v) && c1.index == c.index + written && Ahead(c1, rest, [])
  }

  lemma FirstByte(n: nat)
    requires n < 256
    ensures Word(n)[0] == n
  {
    Range4();
    assert Store(n, 4) == [n % 256] + Store(n / 256, 3);
  }

  lemma BoolIsRecovered(c: Cursor, n: nat, rest: Bytes)
    requires n <= 1 && Ahead(c, Aligned(Word(n)), rest)
    ensures Recovers(c, Bool(n == 1), 4, rest)
  {
    FirstByte(n);
    assert Align(1, 4) == 4 && Align(4, 4) == 4;
    hide Ahead, Aligned, Store, Load, Range, Word, Align;
    TakeFromBlock(c, Word(n), rest, 1);
  }

  lemma UnsignedIsRecovered(c: Cursor, v: Value, width: nat, rest: Bytes)
    requires Writable(v) && match v case UInt16(_) => width == 2 case UInt32(_) => width == 4 case UInt64(_) => width == 8 case _ => false
    requires Ahead(c, Aligned(Store(v.u, width)), rest)
    ensures Recovers(c, v, |Aligned(Store(v.u, width))|, rest)
  {
    Range4();
    hide Aligned, Ahead, Range;
    LoadOfStore(v.u, width);
    TakeBlock(c, Store(v.u, width), rest);
  }

  lemma Int64IsRecovered(c: Cursor, v: Value, rest: Bytes)
    requires Writable(v) && v.Int64? && Ahead(c, Concat(Blocks(v)), rest)
    ensures Recovers(c, v, 8, rest)
  {
    Range4();
    var b := Store(Unsigned(v.i, 8), 8);
    ConcatOfOne(b);
    TakeBlock(c, b, rest);
    hide Aligned, Ahead, Range, Store, Load, Concat;
    LoadOfStore(Unsigned(v.i, 8), 8);
    SignedOfUnsigned(v.i, 8);
  }

  lemma ScalarIsRecovered(c: Cursor, v: Value, rest: Bytes)
    requires Writable(v) && !v.String? && !v.String16? && !v.Data?
    requires Ahead(c, Concat(Blocks(v)), rest)
    ensures Recovers(c, v, |Concat(Blocks(v))|, rest)
  {
    ConcatOfOne(Blocks(v)[0]);
    assert Blocks(v) == [Blocks(v)[0]];
    hide Concat, Aligned, Ahead, Store, Load, Take, Range;
    match v
    case Bool(b) => BoolIsRecovered(c, if b then 1 else 0, rest);
    case Int(i) => ReadWordOfBlock(c, i, rest);
    case UInt16(u) => UnsignedIsRecovered(c, v, 2, rest);
    case UInt32(u) => UnsignedIsRecovered(c, v, 4, rest);
    case Int64(i) => Int64IsRecovered(c, v, rest);
    case UInt64(u) => UnsignedIsRecovered(c, v, 8, rest);
    case Raw(s) => TakeBlock(c, s, rest);
  }

  lemma CountedRead(c: Cursor, v: Value, n: nat, b: Bytes)
    requires Writable(v) && (v.String? || v.String16? || v.Data?) && ValidCursor(c)
    requires if v.String16? then n == |v.s16| && b == Units(v.s16) else n == |v.s| && b == v.s
    requires ReadWord(c).0 == Some(n) && Take(ReadWord(c).1, |b|).0 == Some(b)
    ensures Read(c, KindOf(v)) == (Some(v), Take(ReadWord(c).1, |b|).1)
  {
    hide ReadWord, Take;
    if v.String16? {
      UnitsRoundTrip(v.s16);
      assert TakeElements(ReadWord(c).1, n, 2) == Take(ReadWord(c).1, |b|);
    }
  }

  lemma CountedIsRecovered(c: Cursor, v: Value, n: nat, b: Bytes, rest: Bytes)
    requires Writable(v) && (v.String? || v.String16? || v.Data?) && n <= INT_MAX && |b| <= INT_MAX
    requires if v.String16? then n == |v.s16| && b == Units(v.s16) else n == |v.s| && b == v.s
    requires Ahead(c, Concat(Blocks(v)), rest)
    ensures Recovers(c, v, |Concat(Blocks(v))|, rest)
  {
    assert Blocks(v) == [Word(n), b];
    ConcatOfTwo(Word(n), b);
    var p, q := Aligned(Word(n)), Aligned(b);
    assert Ahead(c, p, q + rest) by { assert p + q + rest == p + (q + rest); }
    hide Concat, Aligned, Word, Store, Load, Range, Writable, Blocks;
    ReadWordOfBlock(c, n, q + rest);
    var c1 := ReadWord(c).1;
    assert Ahead(c1, q, rest) by { assert q + rest + [] == q + rest; }
    hide Ahead, Take, ReadWord;
    TakeBlock(c1, b, rest);
    CountedRead(c, v, n, b);
  }

  /** A read of the matching kind recovers one written value and stops behind it. */
  lemma ValueIsRecovered(c: Cursor, v: Value, rest: Bytes)
    requires Writable(v) && Ahead(c, Concat(Blocks(v)), rest)
    ensures Recovers(c, v, |Concat(Blocks(v))|, rest)
  {
    hide Ahead, Concat, Recovers;
    match v
    case String(s) => CountedIsRecovered(c, v, |s|, s, rest);
    case String16(s16) => CountedIsRecovered(c, v, |s16|, Units(s16), rest);
    case Data(s) => CountedIsRecovered(c, v, |s|, s, rest);
    case _ => ScalarIsRecovered(c, v, rest);
  }

  // ----- longer strings -----------------------------------------------------------------

  /** The bytes that a string contributes: its length is cast to int. */
  function CastLength(v: Value): (n: int)
    requires v.String? || v.String16?
    ensures -0x8000_0000 <= n <= INT_MAX
  {
    if v.String? then ToInt32(|v.s|) else ToInt32(2 * ToInt32(|v.s16|))
  }

  /** The argument has the C++ type, and its length as cast is not negative. */
  predicate Accepted(v: Value) {
    if v.String? || v.String16? then CastLength(v) >= 0 else Writable(v)
  }

  lemma CastIsShorter(v: Value)
    requires (v.String? || v.String16?) && CastLength(v) >= 0
    ensures CastLength(v) <= if v.String? then |v.s| else 2 * |v.s16|
    ensures v.String16? && ToInt32(|v.s16|) >= 0 ==> CastLength(v) == 2 * ToInt32(|v.s16|) <= 2 * |v.s16|
    ensures v.String16? && ToInt32(|v.s16|) < 0 ==> |v.s16| > INT_MAX
  {
  }

  /** The blocks that the Write method appends, whatever the length of a string is. */
  function Written(v: Value): (r: seq<Bytes>)
    requires Accepted(v)
    ensures Small(r)
  {
    match v
    case String(s) => CastIsShorter(v); [Word(ToInt32(|s|)), s[..CastLength(v)]]
    case String16(s16) => CastIsShorter(v); [Word(ToInt32(|s16|)), Units(s16)[..CastLength(v)]]
    case _ => Blocks(v)
  }

  /** For a string that fits in an int, that is its encoding. */
  lemma WrittenIsBlocks(v: Value)
    requires Writable(v)
    ensures Accepted(v) && Written(v) == Blocks(v)
  {
    if v.String16? {
      assert Units(v.s16)[..2 * |v.s16|] == Units(v.s16);
    } else if v.String? {
      assert v.s[..|v.s|] == v.s;
    }
  }

  lemma {:induction false} UnitsOfPrefix(s16: seq<char16>, n: nat)
    requires n <= |s16|
    ensures Units(s16)[..2 * n] == Units(s16[..n])
    decreases n
  {
    if n > 0 {
      UnitsOfPrefix(s16[1..], n - 1);
      assert s16[..n][1..] == s16[1..][..n - 1];
      assert Units(s16)[..2 * n] == Store(s16[0], 2) + Units(s16[1..])[..2 * (n - 1)];
    }
  }

  /** A read of the matching kind recovers what was written exactly if the length fits: longer
      strings come back cut off, or not at all. */
  lemma WrittenIsRecoveredIff(c: Cursor, v: Value, rest: Bytes)
    requires Accepted(v) && Ahead(c, Concat(Written(v)), rest)
    ensures Read(c, KindOf(v)).0 == Some(v) <==> Writable(v)
  {
    if Writable(v) {
      WrittenIsBlocks(v);
      hide Ahead, Concat, Blocks, Written, Read;
      ValueIsRecovered(c, v, rest);
    } else if v.String16? && ToInt32(|v.s16|) < 0 {
      NegativeCountFails(c, v, rest);
    } else {
      CutStringIsRecovered(c, v, rest);
    }
  }

  /** The string that is written in place of one that is too long. */
  function CutOff(v: Value): (r: Value)
    requires (v.String? || (v.String16? && ToInt32(|v.s16|) >= 0)) && CastLength(v) >= 0
    ensures Writable(r) && KindOf(r) == KindOf(v)
  {
    CastIsShorter(v);
    if v.String? then String(v.s[..ToInt32(|v.s|)]) else String16(v.s16[..ToInt32(|v.s16|)])
  }

  lemma CutStringIsRecovered(c: Cursor, v: Value, rest: Bytes)
    requires (v.String? || (v.String16? && ToInt32(|v.s16|) >= 0)) && Accepted(v) && !Writable(v)
    requires Ahead(c, Concat(Written(v)), rest)
    ensures Read(c, KindOf(v)).0 == Some(CutOff(v)) && CutOff(v) != v
  {
    var w := CutOff(v);
    CastIsShorter(v);
    if v.String16? {
      UnitsOfPrefix(v.s16, ToInt32(|v.s16|));
    }
    assert Written(v) == Blocks(w);
    hide Ahead, Concat, Blocks, Written, Read;
    ValueIsRecovered(c, w, rest);
  }

  lemma NegativeCountFails(c: Cursor, v: Value, rest: Bytes)
    requires v.String16? && ToInt32(|v.s16|) < 0 && Accepted(v) && Ahead(c, Concat(Written(v)), rest)
    ensures Read(c, KindOf(v)).0 == None
  {
    var n, b := ToInt32(|v.s16|), Written(v)[1];
    assert Written(v) == [Word(n), b];
    ConcatOfTwo(Word(n), b);
    assert Ahead(c, Aligned(Word(n)), Aligned(b) + rest) by {
      assert Aligned(Word(n)) + Aligned(b) + rest == Aligned(Word(n)) + (Aligned(b) + rest);
    }
    hide Concat, Written, Ahead, Word, Aligned;
    ReadWordOfBlock(c, n, Aligned(b) + rest);
    NegativeCount(ReadWord(c).1, n);
    hide TakeElements, ReadWord;
  }

  lemma NegativeCount(c: Cursor, n: int)
    requires ValidCursor(c) && -0x8000_0000 <= n < 0
    ensures TakeElements(c, n, 2).0 == None
  {
  }

  function KindsOf(vs: seq<Value>): seq<Kind> {
    if vs == [] then [] else [KindOf(vs[0])] + KindsOf(vs[1..])
  }

  /** The values read back in order are the values written, and the reads end exactly at
      the end of the payload. */
  lemma {:induction false} ReadsBackWhatWasWritten(c: Cursor, vs: seq<Value>)
    requires forall i :: 0 <= i < |vs| ==> Writable(vs[i])
    requires Ahead(c, Concat(AllBlocks(vs)), [])
    ensures ReadAll(c, KindsOf(vs)) == (Some(vs), c.(index := |c.payload|))
    decreases |vs|
  {
    if vs == [] {
      assert |c.payload[c.index..]| == 0;
    } else {
      FirstIsReadBack(c, vs);
      var c1 := Read(c, KindOf(vs[0])).1;
      assert KindsOf(vs) == [KindOf(vs[0])] + KindsOf(vs[1..]);
      hide *;
      ReadsBackWhatWasWritten(c1, vs[1..]);
      ReadAllUnfolds(c, KindOf(vs[0]), KindsOf(vs[1..]));
      assert [vs[0]] + vs[1..] == vs;
    }
  }

  lemma FirstIsReadBack(c: Cursor, vs: seq<Value>)
    requires vs != [] && forall i :: 0 <= i < |vs| ==> Writable(vs[i])
    requires Ahead(c, Concat(AllBlocks(vs)), [])
    ensures var (r, c1) := Read(c, KindOf(vs[0]));
            r == Some(vs[0]) && ValidCursor(c1) && c1.payload == c.payload && Ahead(c1, Concat(AllBlocks(vs[1..])), [])
  {
    AheadSplits(c, vs);
    hide Ahead, Concat, Writable, Blocks, Read, KindOf, AllBlocks, Small;
    ValueIsRecovered(c, vs[0], Concat(AllBlocks(vs[1..])));
  }

  lemma AheadSplits(c: Cursor, vs: seq<Value>)
    requires vs != [] && forall i :: 0 <= i < |vs| ==> Writable(vs[i])
    requires Ahead(c, Concat(AllBlocks(vs)), [])
    ensures Ahead(c, Concat(Blocks(vs[0])), Concat(AllBlocks(vs[1..])))
    ensures |Concat(AllBlocks(vs))| == |Concat(Blocks(vs[0]))| + |Concat(AllBlocks(vs[1..]))|
  {
    var first, rest := Concat(Blocks(vs[0])), Concat(AllBlocks(vs[1..]));
    ConcatOfConcat(Blocks(vs[0]), AllBlocks(vs[1..]));
    assert first + rest + [] == first + rest;
  }

  lemma ReadAllUnfolds(c: Cursor, k: Kind, ks: seq<Kind>)
    requires ValidCursor(c) && Read(c, k).0.Some?
    ensures var (v, c1) := Read(c, k);
            var (vs, c2) := ReadAll(c1, ks);
            ReadAll(c, [k] + ks) == (if vs.Some? then Some([v.value] + vs.value) else None, c2)
  {
    assert ([k] + ks)[1..] == ks;
  }
}

/** The writer, its growth, reopening a block of data, and cutting a stream of pickles. */
module Pickle {
  import opened Common
  import opened Bits
  import opened PickleFormat

  // ----- growth -----------------------------------------------------------------------

  /** Resize(max(new_capacity, new_size)) of ClaimUninitializedBytesInternal. */
  function CapacityFor(capacity: nat, newSize: nat): (r: nat)
    requires capacity <= 0x8000_0000_0000 && newSize <= UINT32_MAX
    ensures newSize <= r && capacity <= r && (capacity % 64 == 0 ==> r % 64 == 0)
    ensures r <= 2 * capacity + newSize + 8192
    ensures newSize <= capacity ==> r == capacity
    // each growth at least doubles what lies above the first unit
    ensures newSize > capacity ==> r - 64 >= 2 * (capacity - 64)
  {
    if newSize <= capacity then capacity
    else
      var doubled := capacity * 2;
      var wanted := if doubled > HEAP_ALIGN then Align(doubled, HEAP_ALIGN) - PAYLOAD_UNIT else doubled;
      AlignIsMultiple(Max(wanted, newSize), PAYLOAD_UNIT);
      Align(Max(wanted, newSize), PAYLOAD_UNIT)
  }

  /** A pickle that has only been written to: capacity_after_header_, write_offset_, and
      the bytes that realloc has moved so far. */
  datatype Growth = Growth(capacity: nat, offset: nat, moved: nat, growths: nat)

  const FRESH := Growth(PAYLOAD_UNIT, 0, 0, 0)

  function AfterWrite(g: Growth, length: nat, headerSize: nat): (r: Growth)
    requires g.capacity <= 0x8000_0000_0000 && length <= UINT32_MAX && g.offset + Align(length, 4) <= UINT32_MAX
    ensures r.offset == g.offset + Align(length, 4) <= r.capacity
  {
    AfterClaim(g, g.offset + Align(length, 4), headerSize)
  }

  function AfterClaim(g: Growth, newSize: nat, headerSize: nat): (r: Growth)
    requires g.capacity <= 0x8000_0000_0000 && newSize <= UINT32_MAX
    ensures r.offset == newSize <= r.capacity
  {
    var c := CapacityFor(g.capacity, newSize);
    if newSize <= g.capacity then g.(offset := newSize)
    else Growth(c, newSize, g.moved + headerSize + g.capacity, g.growths + 1)
  }

  function Total(lengths: seq<nat>): nat {
    if lengths == [] then 0 else Total(lengths[..|lengths| - 1]) + (lengths[|lengths| - 1] + 3) / 4 * 4
  }

  function AfterWrites(lengths: seq<nat>, headerSize: nat): (g: Growth)
    requires Total(lengths) <= UINT32_MAX
    ensures g.offset == Total(lengths) <= g.capacity <= 0x8000_0000_0000 && g.capacity % 64 == 0
    ensures g.capacity <= 4 * UINT32_MAX
  {
    if lengths == [] then FRESH
    else
      var g := AfterWrites(lengths[..|lengths| - 1], headerSize);
      AfterWrite(g, lengths[|lengths| - 1], headerSize)
  }

  /** What bounds the copying: with d the capacity above the first unit, d at least doubles
      at each growth, so both the sum of the blocks moved and the number of growths stay
      below it. */
  ghost predicate Amortised(capacity: nat, moved: nat, growths: nat) {
    var d := capacity - 64;
    if growths == 0 then d == 0 && moved == 0
    else d >= 64 && (growths >= 2 ==> d >= 128) && moved <= d - 64 + 128 * growths && 128 * growths <= d + 192
  }

  /** Whatever a growth is for, it keeps the bound if it at least doubles d. */
  lemma GrowthStaysAmortised(capacity: nat, moved: nat, growths: nat, headerSize: nat, larger: nat)
    requires Amortised(capacity, moved, growths) && headerSize <= PAYLOAD_UNIT
    requires capacity < larger && capacity % 64 == 0 && larger % 64 == 0 && larger - 64 >= 2 * (capacity - 64)
    ensures Amortised(larger, moved + headerSize + capacity, growths + 1)
  {
  }

  /** Over any sequence of writes realloc moves at most twice the final capacity in total. */
  lemma {:induction false} CopyingIsAmortised(lengths: seq<nat>, headerSize: nat)
    requires Total(lengths) <= UINT32_MAX && headerSize <= PAYLOAD_UNIT
    ensures var g := AfterWrites(lengths, headerSize);
            Amortised(g.capacity, g.moved, g.growths) && g.moved <= 2 * g.capacity
  {
    if lengths != [] { CopyingIsAmortised(lengths[..|lengths| - 1], headerSize); }
  }

  // ----- the class --------------------------------------------------------------------

  class Pickle {
    var header: array<byte>     // header_: the header and the space for the payload
    var headerSize: nat
    var capacity: nat           // capacity_after_header_
    var writeOffset: nat
    ghost var moved: nat        // bytes that realloc has moved so far
    ghost var growths: nat

    ghost predicate Valid()
      reads this, header
    {
      ValidBlock() && Amortised(capacity, moved, growths)
    }

    ghost predicate ValidBlock()
      reads this, header
    {
      && HEADER <= headerSize <= PAYLOAD_UNIT && headerSize % 4 == 0
      && header.Length == headerSize + capacity
      && PAYLOAD_UNIT <= capacity <= 0x8000_0000_0000 && capacity % 64 == 0
      && writeOffset <= capacity && writeOffset <= UINT32_MAX && writeOffset % 4 == 0
      && Load(header[..HEADER]) == writeOffset
    }

    ghost function Copying(): Growth reads this { Growth(capacity, writeOffset, moved, growths) }

    ghost function Payload(): Bytes
      reads this, header
      requires Valid()
    {
      header[headerSize..headerSize + writeOffset]
    }

    /** data(), size() bytes long. */
    ghost function Contents(): Bytes
      reads this, header
      requires Valid()
    {
      header[..headerSize + writeOffset]
    }

    constructor (size: nat)
      requires HEADER <= size <= PAYLOAD_UNIT
      ensures Valid() && fresh(header) && Payload() == []
      ensures headerSize == Align(size, 4) && Copying() == FRESH
    {
      headerSize := Align(size, 4);
      capacity := PAYLOAD_UNIT;
      writeOffset, moved, growths := 0, 0, 0;
      header := new byte[Align(size, 4) + PAYLOAD_UNIT];
      new;
      SetPayloadSize(0);
    }

    /** header_->payload_size = n */
    method SetPayloadSize(n: nat)
      requires header.Length >= HEADER && n <= UINT32_MAX
      modifies header
      ensures Load(header[..HEADER]) == n
      ensures forall i :: HEADER <= i < header.Length ==> header[i] == old(header[i])
    {
      Range4();
      LoadOfStore(n, HEADER);
      CopyTo(header, 0, Store(n, HEADER));
      assert header[..HEADER] == Store(n, HEADER);
    }

    /** To any capacity, whether larger or smaller; what fits into the new block is moved. */
    method Resize(newCapacity: nat)
      requires ValidBlock() && newCapacity <= 0x4000_0000_0000
      modifies this`capacity, this`header, this`moved, this`growths
      ensures fresh(header) && capacity == Align(newCapacity, PAYLOAD_UNIT) && header.Length == headerSize + capacity
      ensures 0 < newCapacity && writeOffset <= capacity ==> ValidBlock()
      ensures moved == old(moved) + headerSize + Min(old(capacity), capacity) && growths == old(growths) + 1
      ensures forall i :: 0 <= i < headerSize + Min(old(capacity), capacity) ==> header[i] == old(header[i])
    {
      ghost var size := headerSize + Min(capacity, Align(newCapacity, PAYLOAD_UNIT));
      moved, growths := moved + size, growths + 1;
      var p := new byte[headerSize + Align(newCapacity, PAYLOAD_UNIT)];
      forall i | 0 <= i < header.Length && i < p.Length {
        p[i] := header[i];
      }
      assert p[..HEADER] == header[..HEADER];
      capacity := Align(newCapacity, PAYLOAD_UNIT);
      header := p;
      assert header[..HEADER] == old(header[..HEADER]);
    }

    method Reserve(length: nat)
      requires Valid() && length <= UINT32_MAX - 3 && writeOffset + Align(length, 4) <= UINT32_MAX
      requires capacity <= 0x1000_0000_0000
      modifies this`capacity, this`header, this`moved, this`growths
      ensures Valid() && (header == old(header) || fresh(header)) && moved <= 2 * capacity
      ensures Contents() == old(Contents()) && writeOffset + Align(length, 4) <= capacity
    {
      var newSize := writeOffset + Align(length, 4);
      if newSize > capacity {
        GrowthStaysAmortised(capacity, moved, growths, headerSize, Align(capacity * 2 + newSize, PAYLOAD_UNIT));
        Resize(capacity * 2 + newSize);
      }
    }

    /** Makes room for a payload of newSize bytes. */
    method Grow(newSize: nat)
      requires Valid() && newSize <= UINT32_MAX
      modifies this`capacity, this`header, this`moved, this`growths
      ensures Valid() && (header == old(header) || fresh(header))
      ensures Copying().(offset := newSize) == AfterClaim(old(Copying()), newSize, headerSize)
      ensures forall i :: 0 <= i < headerSize + writeOffset ==> header[i] == old(header[i])
    {
      if newSize > capacity {
        var newCapacity := capacity * 2;
        if newCapacity > HEAP_ALIGN {
          newCapacity := Align(newCapacity, HEAP_ALIGN) - PAYLOAD_UNIT;
        }
        newCapacity := if newCapacity > newSize then newCapacity else newSize;
        assert 0 < newCapacity <= 0x4000_0000_0000 && Align(newCapacity, PAYLOAD_UNIT) == CapacityFor(capacity, newSize);
        hide CapacityFor, Amortised, Load;
        GrowthStaysAmortised(capacity, moved, growths, headerSize, CapacityFor(capacity, newSize));
        hide Align;
        Resize(newCapacity);
      }
    }

    /** Extends the payload by the padded length. The claimed bytes keep whatever the
        memory held; the padding is cleared. */
    method ClaimUninitializedBytes(length: nat) returns (write: nat)
      requires Valid() && length <= UINT32_MAX - 3 && writeOffset + Align(length, 4) <= UINT32_MAX
      modifies this, header
      ensures Valid() && (header == old(header) || fresh(header)) && headerSize == old(headerSize)
      ensures write == headerSize + old(writeOffset) && Copying() == AfterWrite(old(Copying()), length, headerSize)
      ensures forall i :: HEADER <= i < write ==> header[i] == old(header[i])
      ensures forall i :: write + length <= i < headerSize + writeOffset ==> header[i] == 0
    {
      hide CapacityFor, AfterClaim, Amortised;
      var dataLen := Align(length, 4);
      assert dataLen % 4 == 0;
      hide Align, Load;
      Grow(writeOffset + dataLen);
      write := headerSize + writeOffset;
      hide Valid, AfterWrite;
      EndPayload(length, dataLen);
    }

    /** Clears the padding behind length bytes, and lets the payload end there. */
    method EndPayload(length: nat, dataLen: nat)
      requires Valid() && length <= dataLen && dataLen % 4 == 0
      requires writeOffset + dataLen <= capacity && writeOffset + dataLen <= UINT32_MAX
      modifies this`writeOffset, header
      ensures Valid() && writeOffset == old(writeOffset) + dataLen
      ensures forall i :: HEADER <= i < headerSize + old(writeOffset) ==> header[i] == old(header[i])
      ensures forall i :: headerSize + old(writeOffset) + length <= i < headerSize + writeOffset ==> header[i] == 0
    {
      hide Amortised, Load;
      CopyTo(header, headerSize + writeOffset + length, Repeat<byte>(0, dataLen - length));
      SetPayloadSize(writeOffset + dataLen);
      writeOffset := writeOffset + dataLen;
    }

    method WriteBytesCommon(data: Bytes)
      requires Valid() && |data| <= UINT32_MAX - 3 && writeOffset + Align(|data|, 4) <= UINT32_MAX
      modifies this, header
      ensures Valid() && (header == old(header) || fresh(header)) && headerSize == old(headerSize)
      ensures Payload() == old(Payload()) + Aligned(data)
      ensures Copying() == AfterWrite(old(Copying()), |data|, headerSize)
      ensures header[HEADER..headerSize] == old(header[HEADER..headerSize])
    {
      hide CapacityFor, AfterWrite, Amortised, Align, Load;
      var write := ClaimUninitializedBytes(|data|);
      ghost var size := header[..HEADER];
      CopyTo(header, write, data);
      assert header[..HEADER] == size;
      Assembled(header[..], old(Payload()), headerSize, data);
    }

    /** WriteString, WriteString16 and WriteData: the length, then the bytes. */
    method WriteCounted(count: int, data: Bytes)
      requires Valid() && -0x8000_0000 <= count <= INT_MAX && |data| <= INT_MAX
      requires writeOffset + 4 + Align(|data|, 4) <= UINT32_MAX
      modifies this, header
      ensures Valid() && (header == old(header) || fresh(header)) && headerSize == old(headerSize)
      ensures Payload() == old(Payload()) + (Aligned(Word(count)) + Aligned(data))
      ensures header[HEADER..headerSize] == old(header[HEADER..headerSize])
    {
      hide CapacityFor, Aligned, Word;
      WriteBytesCommon(Word(count));
      WriteBytesCommon(data);
    }

    /** The Write method of each type. */
    method Write(v: Value)
      requires Valid() && Accepted(v) && writeOffset + |Concat(Written(v))| <= UINT32_MAX
      modifies this, header
      ensures Valid() && (header == old(header) || fresh(header)) && headerSize == old(headerSize)
      ensures Payload() == old(Payload()) + Concat(Written(v)) && moved <= 2 * capacity
      ensures header[HEADER..headerSize] == old(header[HEADER..headerSize])
    {
      var blocks := Written(v);
      if |blocks| == 1 {
        assert blocks == [blocks[0]];
        ConcatOfOne(blocks[0]);
        hide Valid, Concat, Aligned, CapacityFor, Align, Word, Written;
        WriteBytesCommon(blocks[0]);
      } else {
        var count := if v.String16? then ToInt32(|v.s16|) else ToInt32(|v.s|);
        assert blocks == [Word(count), blocks[1]] && |blocks[1]| <= INT_MAX;
        ConcatOfTwo(blocks[0], blocks[1]);
        hide Valid, Concat, Aligned, CapacityFor, Align, Word, Written;
        WriteCounted(count, blocks[1]);
      }
    }
  }

  /** The block now holds the old payload, the data and cleared padding, one after another. */
  lemma Assembled(block: Bytes, payload: Bytes, at: nat, data: Bytes)
    requires |data| <= UINT32_MAX && at + |payload| + |Aligned(data)| <= |block|
    requires forall k :: at <= k < at + |payload| ==> block[k] == payload[k - at]
    requires forall k :: at + |payload| <= k < at + |payload| + |data| ==> block[k] == data[k - at - |payload|]
    requires forall k :: at + |payload| + |data| <= k < at + |payload| + |Aligned(data)| ==> block[k] == 0
    ensures block[at..at + |payload| + |Aligned(data)|] == payload + Aligned(data)
  {
    var all, want := block[at..at + |payload| + |Aligned(data)|], payload + Aligned(data);
    assert forall i :: 0 <= i < |all| ==> all[i] == block[at + i] == want[i];
  }

  /** What data() and size() hand out is a block that stores its own payload size. */
  lemma ContentsArePickle(p: Pickle)
    requires p.Valid()
    ensures IsPickle(p.Contents(), p.headerSize) && p.Contents()[p.headerSize..] == p.Payload()
  {
    assert p.Contents()[..HEADER] == p.header[..HEADER];
  }

  /** Write after write: if the payload encodes vs, then after Write(v) it encodes vs and v. */
  lemma {:induction false} PayloadOfOneMore(vs: seq<Value>, v: Value)
    requires Writable(v) && forall i :: 0 <= i < |vs| ==> Writable(vs[i])
    ensures Concat(AllBlocks(vs + [v])) == Concat(AllBlocks(vs)) + Concat(Blocks(v))
  {
    AllBlocksOfOneMore(vs, v);
    ConcatOfConcat(AllBlocks(vs), Blocks(v));
  }

  lemma {:induction false} AllBlocksOfOneMore(vs: seq<Value>, v: Value)
    requires Writable(v) && forall i :: 0 <= i < |vs| ==> Writable(vs[i])
    ensures AllBlocks(vs + [v]) == AllBlocks(vs) + Blocks(v)
  {
    if vs == [] {
      assert vs + [v] == [v] && [v][1..] == [];
    } else {
      assert (vs + [v])[1..] == vs[1..] + [v];
      AllBlocksOfOneMore(vs[1..], v);
    }
  }

  // ----- the reader -------------------------------------------------------------------

  class PickleIterator {
    const payload: Bytes     // the end_index_ bytes at payload_
    var readIndex: nat

    ghost predicate Valid() reads this { ValidCursor(Cursor(payload, readIndex)) }

    ghost function At(): Cursor reads this { Cursor(payload, readIndex) }

    constructor (payload: Bytes)
      requires |payload| <= UINT32_MAX
      ensures Valid() && At() == Cursor(payload, 0)
    {
      this.payload, readIndex := payload, 0;
    }

    method Advance(size: nat)
      requires Valid() && size <= UINT32_MAX
      modifies this
      ensures Valid() && At() == PickleFormat.Advance(old(At()), size)
    {
      var alignedSize := Align(size, 4);
      if |payload| - readIndex < alignedSize {
        readIndex := |payload|;
      } else {
        readIndex := readIndex + alignedSize;
      }
    }

    method GetReadPointerAndAdvance(numBytes: int) returns (read: Option<Bytes>)
      requires Valid()
      modifies this
      ensures Valid() && (read, At()) == Take(old(At()), numBytes)
    {
      if numBytes < 0 || |payload| - readIndex < numBytes {
        readIndex := |payload|;
        return None;
      }
      read := Some(payload[readIndex..readIndex + numBytes]);
      Advance(numBytes);
    }

    method GetReadPointerAndAdvanceElements(count: int, size: nat) returns (read: Option<Bytes>)
      requires Valid()
      modifies this
      ensures Valid() && (read, At()) == TakeElements(old(At()), count, size)
    {
      var numBytes := count * size;
      var numBytes32 := ToInt32(numBytes);
      if numBytes != numBytes32 {
        return None;
      }
      read := GetReadPointerAndAdvance(numBytes32);
    }

    method ReadInt() returns (r: Option<int>)
      requires Valid()
      modifies this
      ensures Valid() && (r, At()) == ReadWord(old(At()))
    {
      var read := GetReadPointerAndAdvance(4);
      if read.None? {
        return None;
      }
      LoadInRange(read.value);
      r := Some(Signed(Load(read.value), 4));
    }

    method ReadString() returns (r: Option<Bytes>)
      requires Valid()
      modifies this
      ensures Valid()
      ensures (if r.Some? then Some(String(r.value)) else None, At()) == Read(old(At()), KString)
    {
      hide Take, ReadWord;
      var len := ReadInt();
      if len.None? {
        return None;
      }
      r := GetReadPointerAndAdvance(len.value);
    }

    method ReadString16() returns (r: Option<seq<char16>>)
      requires Valid()
      modifies this
      ensures Valid()
      ensures (if r.Some? then Some(String16(r.value)) else None, At()) == Read(old(At()), KString16)
    {
      hide Take, TakeElements, ReadWord, UnitsBack;
      var len := ReadInt();
      if len.None? {
        return None;
      }
      var read := GetReadPointerAndAdvanceElements(len.value, 2);
      if read.None? {
        return None;
      }
      r := Some(UnitsBack(read.value));
    }
  }

  // ----- reopening a block of data ----------------------------------------------------

  /** header_size_ computed by Pickle(data, data_len); 0 means rejected. */
  function ReadOnlyHeaderSize(data: Bytes, dataLen: int): (h: nat)
    requires -0x8000_0000 <= dataLen <= INT_MAX && dataLen <= |data|
    ensures h <= UINT32_MAX
  {
    var deduced := if dataLen >= HEADER then (dataLen - Load(data[..HEADER])) % (UINT32_MAX + 1) else 0;
    var fits := if deduced > dataLen % (UINT32_MAX + 1) then 0 else deduced;
    if fits != Align(fits, 4) then 0 else fits
  }

  /** A rejected block has no payload; otherwise header and payload fill the block and the
      header is aligned and not empty. */
  lemma ReadOnlyFillsItsBlock(data: Bytes, dataLen: int)
    requires -0x8000_0000 <= dataLen <= INT_MAX && dataLen <= |data|
    ensures var h := ReadOnlyHeaderSize(data, dataLen);
            h != 0 ==> h >= HEADER && h % 4 == 0 && dataLen >= HEADER && h + Load(data[..HEADER]) == dataLen
  {
    if dataLen >= HEADER {
      LoadInRange(data[..HEADER]);
      Range4();
      var m := Load(data[..HEADER]);
      assert (dataLen - m) % (UINT32_MAX + 1) == if m <= dataLen then dataLen - m else dataLen - m + UINT32_MAX + 1;
    }
  }

  function ReadOnlyPayload(data: Bytes, dataLen: int): (p: Bytes)
    requires -0x8000_0000 <= dataLen <= INT_MAX && dataLen <= |data|
    ensures |p| <= UINT32_MAX
  {
    var h := ReadOnlyHeaderSize(data, dataLen);
    ReadOnlyFillsItsBlock(data, dataLen);
    if h == 0 then [] else data[h..h + Load(data[..HEADER])]
  }

  class ReadOnlyPickle {
    var header: array?<byte>
    var headerSize: nat

    constructor (data: array<byte>, dataLen: int)
      requires -0x8000_0000 <= dataLen <= INT_MAX && dataLen <= data.Length
      ensures headerSize == ReadOnlyHeaderSize(data[..], dataLen)
      ensures header == if headerSize == 0 then null else data
    {
      var size := 0;
      if dataLen >= HEADER {
        size := (dataLen - Load(data[..HEADER])) % (UINT32_MAX + 1);
        assert data[..][..HEADER] == data[..HEADER];
      }
      if size > dataLen % (UINT32_MAX + 1) {
        size := 0;
      }
      if size != Align(size, 4) {
        size := 0;
      }
      headerSize := size;
      header := if size == 0 then null else data;
    }
  }

  /** Whatever the block holds, reads of any kinds in any order, failed ones among them, leave
      the position inside the payload, and the payload is the end of the block or empty. */
  lemma AnyReadsStayInThePayload(data: Bytes, dataLen: int, ks: seq<Kind>)
    requires -0x8000_0000 <= dataLen <= INT_MAX && dataLen <= |data|
    ensures var p, h := ReadOnlyPayload(data, dataLen), ReadOnlyHeaderSize(data, dataLen);
            var c := AfterReads(Cursor(p, 0), ks);
            && (if h == 0 then p == [] else h + |p| == dataLen && p == data[h..dataLen])
            && c.payload == p && c.index <= |p|
  {
    ReadOnlyFillsItsBlock(data, dataLen);
  }

  /** From any position a read never moves back, and the bytes it is given lie in the block. */
  lemma AnyReadIsInsideTheBlock(data: Bytes, dataLen: int, index: nat, n: int)
    requires -0x8000_0000 <= dataLen <= INT_MAX && dataLen <= |data|
    requires index <= |ReadOnlyPayload(data, dataLen)|
    ensures var p, h := ReadOnlyPayload(data, dataLen), ReadOnlyHeaderSize(data, dataLen);
            var (b, c) := Take(Cursor(p, index), n);
            && index <= c.index <= |p|
            && (b.Some? && h != 0 ==> 0 <= n && h + index + n <= dataLen && b.value == data[h + index..h + index + n])
            && (b.Some? && h == 0 ==> b.value == [])
  {
    ReadOnlyFillsItsBlock(data, dataLen);
    hide ReadOnlyHeaderSize;
    var p, h := ReadOnlyPayload(data, dataLen), ReadOnlyHeaderSize(data, dataLen);
    if h != 0 && 0 <= n <= |p| - index { SliceOfSlice(data, h, |p|, index, n); }
  }

  lemma SliceOfSlice(data: Bytes, at: nat, length: nat, index: nat, n: nat)
    requires at + length <= |data| && index + n <= length
    ensures data[at..at + length][index..index + n] == data[at + index..at + index + n]
  {
    var all, some := data[at..at + length], data[at + index..at + index + n];
    assert forall i :: 0 <= i < n ==> all[index..index + n][i] == all[index + i] == data[at + index + i] == some[i];
  }

  /** The data of a written pickle: a header of this size that stores the payload size. */
  ghost predicate IsPickle(data: Bytes, headerSize: nat) {
    && HEADER <= headerSize <= PAYLOAD_UNIT && headerSize % 4 == 0
    && headerSize <= |data| <= headerSize + UINT32_MAX
    && Load(data[..HEADER]) == |data| - headerSize
  }

  /** Pickle(data(), size()): the size is passed as an int, so the same header and payload
      are found again if and only if it is at most INT_MAX; otherwise the block is rejected. */
  lemma ReopenedIffSizeFitsInt(data: Bytes, headerSize: nat)
    requires IsPickle(data, headerSize)
    ensures ReadOnlyHeaderSize(data, ToInt32(|data|)) == if |data| <= INT_MAX then headerSize else 0
    ensures |data| <= INT_MAX ==> ReadOnlyPayload(data, ToInt32(|data|)) == data[headerSize..]
  {
    var dataLen := ToInt32(|data|);
    var m := |data| - headerSize;
    if |data| <= INT_MAX {
      assert (dataLen - m) % (UINT32_MAX + 1) == headerSize;
    } else if |data| <= UINT32_MAX {
      assert dataLen < 0;
    } else {
      assert dataLen == |data| - UINT32_MAX - 1 < headerSize;
      assert dataLen - m == headerSize - (UINT32_MAX + 1);
      assert (dataLen - m) % (UINT32_MAX + 1) == headerSize;
    }
  }

  /** Written, copied out as a block, reopened and read: the same values. */
  lemma RoundTripThroughABlock(data: Bytes, headerSize: nat, vs: seq<Value>)
    requires IsPickle(data, headerSize) && |data| <= INT_MAX
    requires forall i :: 0 <= i < |vs| ==> Writable(vs[i])
    requires data[headerSize..] == Concat(AllBlocks(vs))
    ensures var p := ReadOnlyPayload(data, |data|);
            ReadAll(Cursor(p, 0), KindsOf(vs)) == (Some(vs), Cursor(p, |p|))
  {
    ReopenedIffSizeFitsInt(data, headerSize);
    var p := ReadOnlyPayload(data, |data|);
    assert p[0..] == p && p + [] == p;
    ReadsBackWhatWasWritten(Cursor(p, 0), vs);
  }

  // ----- cutting a stream of pickles --------------------------------------------------

  /** PeekNext on the bytes from range_start to range_end. */
  function PeekNext(headerSize: nat, range: Bytes): Option<nat>
    requires HEADER <= headerSize <= PAYLOAD_UNIT
  {
    if |range| < HEADER || |range| < headerSize then None
    else
      var payloadSize := Load(range[..HEADER]);
      if payloadSize > SIZE_MAX - headerSize then Some(SIZE_MAX) else Some(headerSize + payloadSize)
  }

  /** FindNext: the length of the pickle at range_start, if all of it is there. */
  function FindNext(headerSize: nat, range: Bytes): (r: Option<nat>)
    requires HEADER <= headerSize <= PAYLOAD_UNIT
    ensures r.Some? && |range| <= SIZE_MAX ==> HEADER <= r.value <= |range|
  {
    var size := PeekNext(headerSize, range);
    if size.None? || size.value > |range| then None else size
  }

  /** Repeated FindNext up to the end of the range. */
  function Cut(headerSize: nat, range: Bytes): Option<seq<Bytes>>
    requires HEADER <= headerSize <= PAYLOAD_UNIT && |range| <= SIZE_MAX
    decreases |range|
  {
    if range == [] then Some([])
    else
      var next := FindNext(headerSize, range);
      if next.None? then None
      else
        var rest := Cut(headerSize, range[next.value..]);
        if rest.None? then None else Some([range[..next.value]] + rest.value)
  }

  function Flatten(ds: seq<Bytes>): Bytes {
    if ds == [] then [] else ds[0] + Flatten(ds[1..])
  }

  ghost predicate ArePickles(ds: seq<Bytes>, headerSize: nat) {
    forall i :: 0 <= i < |ds| ==> IsPickle(ds[i], headerSize)
  }

  /** A range is cut into ds exactly when ds are pickles of this header size and the range
      is their concatenation: every stream of pickles is cut back into the same pickles. */
  lemma CutIffConcatenation(headerSize: nat, range: Bytes, ds: seq<Bytes>)
    requires HEADER <= headerSize <= PAYLOAD_UNIT && headerSize % 4 == 0 && |range| <= SIZE_MAX
    ensures Cut(headerSize, range) == Some(ds) <==> Flatten(ds) == range && ArePickles(ds, headerSize)
  {
    if Cut(headerSize, range) == Some(ds) {
      CutIsConcatenation(headerSize, range, ds);
    } else if Flatten(ds) == range && ArePickles(ds, headerSize) {
      ConcatenationIsCut(headerSize, range, ds);
    }
  }

  lemma {:induction false} CutIsConcatenation(headerSize: nat, range: Bytes, ds: seq<Bytes>)
    requires HEADER <= headerSize <= PAYLOAD_UNIT && headerSize % 4 == 0 && |range| <= SIZE_MAX
    requires Cut(headerSize, range) == Some(ds)
    ensures Flatten(ds) == range && ArePickles(ds, headerSize)
    decreases |range|
  {
    if range != [] {
      var n := FindNext(headerSize, range).value;
      var rest := Cut(headerSize, range[n..]).value;
      assert ds == [range[..n]] + rest && ds[1..] == rest;
      CutIsConcatenation(headerSize, range[n..], rest);
      FoundIsPickle(headerSize, range);
      hide Cut, FindNext, IsPickle;
      assert range == range[..n] + range[n..];
    }
  }

  lemma {:induction false} ConcatenationIsCut(headerSize: nat, range: Bytes, ds: seq<Bytes>)
    requires HEADER <= headerSize <= PAYLOAD_UNIT && headerSize % 4 == 0 && |range| <= SIZE_MAX
    requires Flatten(ds) == range && ArePickles(ds, headerSize)
    ensures Cut(headerSize, range) == Some(ds)
    decreases |ds|
  {
    if ds != [] {
      var d, rest := ds[0], ds[1..];
      assert IsPickle(d, headerSize) && ArePickles(rest, headerSize);
      assert range[|d|..] == Flatten(rest) && range[..|d|] == d && [d] + rest == ds && range != [];
      FirstPickleIsFound(headerSize, range, d);
      hide Flatten, FindNext, IsPickle;
      ConcatenationIsCut(headerSize, range[|d|..], rest);
    }
  }

  lemma FoundIsPickle(headerSize: nat, range: Bytes)
    requires HEADER <= headerSize <= PAYLOAD_UNIT && headerSize % 4 == 0 && |range| <= SIZE_MAX
    requires FindNext(headerSize, range).Some?
    ensures IsPickle(range[..FindNext(headerSize, range).value], headerSize)
  {
    Range4();
    LoadInRange(range[..HEADER]);
    var n := FindNext(headerSize, range).value;
    assert range[..n][..HEADER] == range[..HEADER];
  }

  lemma FirstPickleIsFound(headerSize: nat, range: Bytes, d: Bytes)
    requires IsPickle(d, headerSize) && |d| <= |range| <= SIZE_MAX && range[..|d|] == d
    ensures FindNext(headerSize, range) == Some(|d|)
  {
    Range4();
    assert range[..HEADER] == d[..HEADER];
    LoadInRange(range[..HEADER]);
  }
}
