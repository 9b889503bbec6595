/**
 * The archive writer for spreadsheets, and a reader that goes the way of the PKWARE APPNOTE: from the
 * end record (section 4.3.16) to the central directory (4.3.12) to the local headers (4.3.7).
 */
module Zip {
  import opened Common
  import opened Utf8

  const LOCAL_SIGNATURE: nat := 0x0403_4B50
  const CENTRAL_SIGNATURE: nat := 0x0201_4B50
  const END_SIGNATURE: nat := 0x0605_4B50
  const MAX_REPORT_BYTES: nat := 50 * 1024 * 1024

  datatype File = File(name: Text, body: Bytes)

  /** A file as it is stored: its encoded name, checksum, original size, and compressed body. */
  datatype Entry = Entry(name: Bytes, crc: nat, size: nat, body: Bytes)

  /** The checksum and the compression, which the writer calls. */
  datatype Codec = Codec(crc32: Bytes -> nat, deflate: Bytes -> Bytes)

  function EntryOf(c: Codec, f: File): Entry {
    Entry(Encode(f.name), c.crc32(f.body), |f.body|, c.deflate(f.body))
  }

  /** The numbers of an entry fit the fields of its headers. */
  predicate Fits(e: Entry) {
    |e.name| < 0x1_0000 && e.crc < 0x1_0000_0000 && e.size < 0x1_0000_0000 && |e.body| < 0x1_0000_0000
  }

  // ---------------------------------------------------------------- little-endian numbers

  /** Byte number `k` of a number, the least significant first. */
  function ByteOf(n: nat, k: nat): Byte {
    if k == 0 then n % 0x100 else ByteOf(n / 0x100, k - 1)
  }

  function B0(n: nat): Byte { ByteOf(n, 0) }
  function B1(n: nat): Byte { ByteOf(n, 1) }
  function B2(n: nat): Byte { ByteOf(n, 2) }
  function B3(n: nat): Byte { ByteOf(n, 3) }

  /** The number that a string of bytes stands for. */
  function Value(b: Bytes): nat {
    if b == [] then 0 else b[0] as int + 0x100 * Value(b[1..])
  }

  function U16(b: Bytes, i: nat): nat
    requires i + 2 <= |b|
  {
    Value(b[i..i + 2])
  }

  function U32(b: Bytes, i: nat): nat
    requires i + 4 <= |b|
  {
    Value(b[i..i + 4])
  }

  function LeBytes(n: nat, k: nat): Bytes {
    if k == 0 then [] else [n % 0x100] + LeBytes(n / 0x100, k - 1)
  }

  function Power256(k: nat): nat {
    if k == 0 then 1 else 0x100 * Power256(k - 1)
  }

  lemma {:induction false} ValueOfBytes(n: nat, k: nat)
    requires n < Power256(k)
    ensures Value(LeBytes(n, k)) == n
  {
    if k == 0 {
    } else {
      ValueOfBytes(n / 0x100, k - 1);
      assert LeBytes(n, k)[1..] == LeBytes(n / 0x100, k - 1);
    }
  }

  lemma {:induction false} BytesAt(n: nat, k: nat, i: nat)
    requires i < k
    ensures |LeBytes(n, k)| == k && LeBytes(n, k)[i] == ByteOf(n, i)
    decreases k
  {
    if i > 0 {
      BytesAt(n / 0x100, k - 1, i - 1);
    } else if k > 1 {
      BytesAt(n / 0x100, k - 1, 0);
    }
  }

  // ---------------------------------------------------------------- writing

  function LocalHeader(e: Entry): (h: Bytes)
    ensures |h| == 30
  {
    [0x50, 0x4B, 0x03, 0x04, 20, 0, 8, 0, 8, 0, 0, 0, 0, 0,
     B0(e.crc), B1(e.crc), B2(e.crc), B3(e.crc),
     B0(|e.body|), B1(|e.body|), B2(|e.body|), B3(|e.body|),
     B0(e.size), B1(e.size), B2(e.size), B3(e.size),
     B0(|e.name|), B1(|e.name|), 0, 0]
  }

  function CentralHeader(e: Entry, offset: nat): (h: Bytes)
    ensures |h| == 46
  {
    CentralStart() + CentralSizes(e) + CentralEnd(offset)
  }

  function CentralStart(): Bytes {
    [0x50, 0x4B, 0x01, 0x02, 20, 0, 20, 0, 8, 0, 8, 0, 0, 0, 0, 0]
  }

  function CentralSizes(e: Entry): Bytes {
    [B0(e.crc), B1(e.crc), B2(e.crc), B3(e.crc),
     B0(|e.body|), B1(|e.body|), B2(|e.body|), B3(|e.body|),
     B0(e.size), B1(e.size), B2(e.size), B3(e.size),
     B0(|e.name|), B1(|e.name|)]
  }

  /** No extra field, no comment, first disk, no attributes; then the offset of the local header. */
  function CentralEnd(offset: nat): Bytes {
    [0, 0, 0, 0, 0, 0, 0, 0, 0, 0, 0, 0, B0(offset), B1(offset), B2(offset), B3(offset)]
  }

  function EndRecord(count: nat, size: nat, offset: nat): (h: Bytes)
    ensures |h| == 22
  {
    [0x50, 0x4B, 0x05, 0x06, 0, 0, 0, 0, B0(count), B1(count), B0(count), B1(count),
     B0(size), B1(size), B2(size), B3(size), B0(offset), B1(offset), B2(offset), B3(offset), 0, 0]
  }

  function Local(e: Entry): Bytes {
    LocalHeader(e) + e.name + e.body
  }

  function Central(e: Entry, offset: nat): Bytes {
    CentralHeader(e, offset) + e.name
  }

  /** The first `n` entries, one after the other. */
  function Locals(es: seq<Entry>, n: nat): Bytes
    requires n <= |es|
  {
    if n == 0 then [] else Locals(es, n - 1) + Local(es[n - 1])
  }

  /** The directory of the first `n` entries: each is recorded at the sum of the lengths before it. */
  function Directory(es: seq<Entry>, n: nat): Bytes
    requires n <= |es|
  {
    if n == 0 then [] else Directory(es, n - 1) + Central(es[n - 1], |Locals(es, n - 1)|)
  }

  function Archive(es: seq<Entry>): Bytes {
    Locals(es, |es|) + Directory(es, |es|) + EndRecord(|es|, |Directory(es, |es|)|, |Locals(es, |es|)|)
  }

  /** Everything fits its field, and the archive is not too large. */
  ghost predicate Writable(es: seq<Entry>) {
    |es| < 0x1_0000 && (forall i :: 0 <= i < |es| ==> Fits(es[i])) && |Archive(es)| <= MAX_REPORT_BYTES
  }

  // ---------------------------------------------------------------- reading

  /** What the headers say about an entry, and its body. */
  datatype Stored = Stored(
    name: Bytes, version: nat, flags: nat, compression: nat, modified: nat, crc: nat, size: nat, body: Bytes)

  /** The entry whose local header starts at `offset`. */
  function ReadLocal(b: Bytes, offset: nat): Option<Stored> {
    if offset + 30 > |b| || U32(b, offset) != LOCAL_SIGNATURE then None
    else
      var nameEnd := offset + 30 + U16(b, offset + 26);
      var start := nameEnd + U16(b, offset + 28);
      var length := U32(b, offset + 18);
      if start + length > |b| then None
      else
        Some(Stored(b[offset + 30..nameEnd], U16(b, offset + 4), U16(b, offset + 6), U16(b, offset + 8),
                    U32(b, offset + 10), U32(b, offset + 14), U32(b, offset + 22), b[start..start + length]))
  }

  /** The directory record at `at` says the same as the local header it points to. */
  predicate Agrees(b: Bytes, at: nat, s: Stored)
    requires at + 46 <= |b| && at + 46 + U16(b, at + 28) <= |b|
  {
    && s.name == b[at + 46..at + 46 + U16(b, at + 28)]
    && s.version == U16(b, at + 6) && s.flags == U16(b, at + 8) && s.compression == U16(b, at + 10)
    && s.modified == U32(b, at + 12) && s.crc == U32(b, at + 16) && |s.body| == U32(b, at + 20)
    && s.size == U32(b, at + 24) && U16(b, at + 34) == 0
  }

  /** The entries of a directory; records that disagree with their local headers are refused. */
  function ReadDirectory(b: Bytes, at: nat, count: nat): Option<seq<Stored>>
    decreases count
  {
    if count == 0 then Some([])
    else if at + 46 > |b| || U32(b, at) != CENTRAL_SIGNATURE then None
    else
      var next := at + 46 + U16(b, at + 28) + U16(b, at + 30) + U16(b, at + 32);
      if next > |b| then None
      else
        var first := ReadLocal(b, U32(b, at + 42));
        var rest := ReadDirectory(b, next, count - 1);
        if first.None? || !Agrees(b, at, first.value) || rest.None? then None else Some([first.value] + rest.value)
  }

  /** Reads an archive on one disk whose end record carries no comment and stands right behind the directory. */
  function ReadArchive(b: Bytes): Option<seq<Stored>> {
    if |b| < 22 then None
    else
      var end := |b| - 22;
      if U32(b, end) != END_SIGNATURE || U16(b, end + 20) != 0 then None
      else if U16(b, end + 4) != 0 || U16(b, end + 6) != 0 || U16(b, end + 8) != U16(b, end + 10) then None
      else if U32(b, end + 16) + U32(b, end + 12) != end then None
      else ReadDirectory(b, U32(b, end + 16), U16(b, end + 10))
  }

  // ---------------------------------------------------------------- round trip

  /** The bytes `x` stand at place `i` of `b`. */
  ghost predicate StandsAt(b: Bytes, i: nat, x: Bytes) {
    i + |x| <= |b| && b[i..i + |x|] == x
  }

  lemma StandsPart(b: Bytes, i: nat, p: Bytes, x: Bytes, q: Bytes)
    requires StandsAt(b, i, p + x + q)
    ensures StandsAt(b, i, p) && StandsAt(b, i + |p|, x) && StandsAt(b, i + |p| + |x|, q)
  {
    var y := p + x + q;
    var at := b[i..i + |y|];
    assert y[..|p|] == p && y[|p|..|p| + |x|] == x && y[|p| + |x|..] == q;
    assert at[..|p|] == b[i..i + |p|];
    assert at[|p|..] == b[i + |p|..i + |y|];
    assert at[|p|..|p| + |x|] == at[|p|..][..|x|] == b[i + |p|..i + |y|][..|x|];
    assert b[i + |p|..i + |y|][..|x|] == b[i + |p|..i + |p| + |x|];
    assert at[|p| + |x|..] == b[i + |p| + |x|..i + |p| + |x| + |q|];
  }

  /** A number is read the same where the bytes stand. */
  lemma SameNumbers(b: Bytes, i: nat, x: Bytes, k: nat)
    requires StandsAt(b, i, x)
    ensures k + 2 <= |x| ==> U16(b, i + k) == U16(x, k)
    ensures k + 4 <= |x| ==> U32(b, i + k) == U32(x, k)
  {
    hide Value;
    if k + 2 <= |x| {
      assert x == x[..k] + x[k..k + 2] + x[k + 2..];
      StandsPart(b, i, x[..k], x[k..k + 2], x[k + 2..]);
    }
    if k + 4 <= |x| {
      assert x == x[..k] + x[k..k + 4] + x[k + 4..];
      StandsPart(b, i, x[..k], x[k..k + 4], x[k + 4..]);
    }
  }

  lemma Small16(b: Bytes, i: nat)
    requires i + 2 <= |b| && b[i + 1] == 0
    ensures U16(b, i) == b[i]
  {
    var x := b[i..i + 2];
    assert x[1..] == [b[i + 1]] && x[1..][1..] == [];
    assert Value([b[i + 1]]) == 0;
  }

  lemma Signature(b: Bytes, c: Byte, d: Byte)
    requires |b| >= 4 && b[0] == 0x50 && b[1] == 0x4B && b[2] == c && b[3] == d
    ensures U32(b, 0) == 0x4B50 + 0x1_0000 * c + 0x100_0000 * d
  {
    var x := b[0..4];
    assert x[1..] == [0x4B, c, d] && [0x4B, c, d][1..] == [c, d] && [c, d][1..] == [d] && [d][1..] == [];
    assert Value([d]) == d as int;
    assert Value([c, d]) == c as int + 0x100 * Value([d]);
    assert Value([0x4B, c, d]) == 0x4B + 0x100 * Value([c, d]);
  }

  lemma Number16At(b: Bytes, i: nat, n: nat)
    requires n < 0x1_0000 && i + 2 <= |b| && b[i] == B0(n) && b[i + 1] == B1(n)
    ensures U16(b, i) == n
  {
    BytesAt(n, 2, 0);
    BytesAt(n, 2, 1);
    assert b[i..i + 2] == LeBytes(n, 2);
    assert Power256(2) == 0x1_0000;
    ValueOfBytes(n, 2);
  }

  lemma Number32At(b: Bytes, i: nat, n: nat)
    requires n < 0x1_0000_0000 && i + 4 <= |b|
    requires b[i] == B0(n) && b[i + 1] == B1(n) && b[i + 2] == B2(n) && b[i + 3] == B3(n)
    ensures U32(b, i) == n
  {
    BytesAt(n, 4, 0);
    BytesAt(n, 4, 1);
    BytesAt(n, 4, 2);
    BytesAt(n, 4, 3);
    assert b[i..i + 4] == LeBytes(n, 4);
    assert Power256(2) == 0x1_0000 && Power256(4) == 0x1_0000 * Power256(2) by {
      assert Power256(3) == 0x100 * Power256(2);
    }
    ValueOfBytes(n, 4);
  }

  lemma LocalFields(e: Entry)
    requires Fits(e)
    ensures var h := LocalHeader(e);
            U32(h, 0) == LOCAL_SIGNATURE && U16(h, 26) == |e.name| && U16(h, 28) == 0 &&
            U16(h, 4) == 20 && U16(h, 6) == 8 && U16(h, 8) == 8 && U32(h, 10) == 0 && U32(h, 14) == e.crc &&
            U32(h, 18) == |e.body| && U32(h, 22) == e.size
  {
    LocalStart(e);
    LocalSizes(e);
    Small16(LocalHeader(e), 28);
    hide B0, B1, B2, B3;
    Number16At(LocalHeader(e), 26, |e.name|);
  }

  lemma LocalStart(e: Entry)
    ensures var h := LocalHeader(e);
            U32(h, 0) == LOCAL_SIGNATURE && U16(h, 4) == 20 && U16(h, 6) == 8 && U16(h, 8) == 8 && U32(h, 10) == 0
  {
    var h := LocalHeader(e);
    assert h[0] == 0x50 && h[1] == 0x4B && h[2] == 3 && h[3] == 4 && h[4] == 20 && h[5] == 0 && h[6] == 8 && h[7] == 0;
    assert h[8] == 8 && h[9] == 0 && h[10] == 0 && h[11] == 0 && h[12] == 0 && h[13] == 0;
    hide LocalHeader;
    Signature(h, 3, 4);
    Small16(h, 4);
    Small16(h, 6);
    Small16(h, 8);
    Zero32(h, 10);
  }

  lemma LocalSizes(e: Entry)
    requires Fits(e)
    ensures var h := LocalHeader(e); U32(h, 14) == e.crc && U32(h, 18) == |e.body| && U32(h, 22) == e.size
  {
    hide B0, B1, B2, B3;
    var h := LocalHeader(e);
    Number32At(h, 14, e.crc);
    Number32At(h, 18, |e.body|);
    Number32At(h, 22, e.size);
  }

  lemma Zero32(b: Bytes, i: nat)
    requires i + 4 <= |b| && b[i] == 0 && b[i + 1] == 0 && b[i + 2] == 0 && b[i + 3] == 0
    ensures U32(b, i) == 0
  {
    var x := b[i..i + 4];
    assert x == [0, 0, 0, 0] && x[1..] == [0, 0, 0] && x[1..][1..] == [0, 0] && x[1..][1..][1..] == [0];
    assert Value([0]) == 0;
    assert Value([0, 0]) == 0;
    assert Value([0, 0, 0]) == 0;
  }

  lemma {:induction false} CentralFields(e: Entry, offset: nat)
    requires Fits(e) && offset < 0x1_0000_0000
    ensures var h := CentralHeader(e, offset);
            U32(h, 0) == CENTRAL_SIGNATURE && U32(h, 20) == |e.body| && U32(h, 42) == offset &&
            U16(h, 28) == |e.name| && U16(h, 30) == 0 && U16(h, 32) == 0 && U16(h, 34) == 0
    ensures var h := CentralHeader(e, offset);
            U16(h, 6) == 20 && U16(h, 8) == 8 && U16(h, 10) == 8 && U32(h, 12) == 0 && U32(h, 16) == e.crc &&
            U32(h, 24) == e.size
  {
    hide CentralStart, CentralSizes, CentralEnd, U16, U32;
    var h, sizes, rest := CentralHeader(e, offset), CentralSizes(e), CentralEnd(offset);
    assert StandsAt(h, 0, h);
    CentralLengths(e, offset);
    StandsPart(h, 0, CentralStart(), sizes, rest);
    StartFields();
    SizeFields(e);
    OffsetField(offset);
    SameNumbers(h, 0, CentralStart(), 0);
    SameNumbers(h, 0, CentralStart(), 6);
    SameNumbers(h, 0, CentralStart(), 8);
    SameNumbers(h, 0, CentralStart(), 10);
    SameNumbers(h, 0, CentralStart(), 12);
    SameNumbers(h, 16, sizes, 0);
    SameNumbers(h, 16, sizes, 8);
    SameNumbers(h, 30, rest, 4);
    SameNumbers(h, 16, sizes, 12);
    SameNumbers(h, 16, sizes, 4);
    SameNumbers(h, 30, rest, 0);
    SameNumbers(h, 30, rest, 2);
    SameNumbers(h, 30, rest, 12);
  }

  lemma StartFields()
    ensures var h := CentralStart();
            U32(h, 0) == CENTRAL_SIGNATURE && U16(h, 6) == 20 && U16(h, 8) == 8 && U16(h, 10) == 8 && U32(h, 12) == 0
  {
    var h := CentralStart();
    Signature(h, 1, 2);
    Small16(h, 6);
    Small16(h, 8);
    Small16(h, 10);
    Zero32(h, 12);
  }

  lemma {:induction false} SizeFields(e: Entry)
    requires Fits(e)
    ensures |CentralSizes(e)| == 14 && U16(CentralSizes(e), 12) == |e.name| && U32(CentralSizes(e), 4) == |e.body|
    ensures U32(CentralSizes(e), 0) == e.crc && U32(CentralSizes(e), 8) == e.size
  {
    hide B0, B1, B2, B3;
    Number32At(CentralSizes(e), 0, e.crc);
    Number32At(CentralSizes(e), 8, e.size);
    Number16At(CentralSizes(e), 12, |e.name|);
    Number32At(CentralSizes(e), 4, |e.body|);
  }

  lemma {:induction false} OffsetField(offset: nat)
    requires offset < 0x1_0000_0000
    ensures var h := CentralEnd(offset);
            |h| == 16 && U16(h, 0) == 0 && U16(h, 2) == 0 && U16(h, 4) == 0 && U32(h, 12) == offset
  {
    Small16(CentralEnd(offset), 0);
    Small16(CentralEnd(offset), 2);
    Small16(CentralEnd(offset), 4);
    var h := CentralEnd(offset);
    assert |h| == 16 && h[0] == 0 && h[1] == 0 && h[2] == 0 && h[3] == 0;
    assert h[12] == B0(offset) && h[13] == B1(offset) && h[14] == B2(offset) && h[15] == B3(offset);
    hide B0, B1, B2, B3, CentralEnd;
    Number32At(h, 12, offset);
  }

  lemma CentralLengths(e: Entry, offset: nat)
    ensures |CentralStart()| == 16 && |CentralSizes(e)| == 14 && |CentralEnd(offset)| == 16
  {
  }

  lemma EndStart(count: nat, size: nat, offset: nat)
    ensures var h := EndRecord(count, size, offset);
            U32(h, 0) == END_SIGNATURE && U16(h, 20) == 0 && U16(h, 4) == 0 && U16(h, 6) == 0
  {
    var h := EndRecord(count, size, offset);
    assert h[0] == 0x50 && h[1] == 0x4B && h[2] == 5 && h[3] == 6;
    assert h[4] == 0 && h[5] == 0 && h[6] == 0 && h[7] == 0 && h[20] == 0 && h[21] == 0;
    hide EndRecord;
    Signature(h, 5, 6);
    Small16(h, 20);
    Small16(h, 4);
    Small16(h, 6);
  }

  lemma {:induction false} EndFields(count: nat, size: nat, offset: nat)
    requires count < 0x1_0000 && size < 0x1_0000_0000 && offset < 0x1_0000_0000
    ensures var h := EndRecord(count, size, offset);
            U32(h, 0) == END_SIGNATURE && U16(h, 8) == count && U16(h, 10) == count && U32(h, 12) == size &&
            U32(h, 16) == offset && U16(h, 20) == 0 && U16(h, 4) == 0 && U16(h, 6) == 0
  {
    var h := EndRecord(count, size, offset);
    EndStart(count, size, offset);
    hide B0, B1, B2, B3;
    Number16At(h, 8, count);
    Number16At(h, 10, count);
    Number32At(h, 12, size);
    Number32At(h, 16, offset);
  }

  /** What a reader finds out about an entry: version 2.0, flags with bit 3, deflated, undated. */
  function StoredEntry(e: Entry): Stored {
    Stored(e.name, 20, 8, 8, 0, e.crc, e.size, e.body)
  }

  lemma ReadsLocal(b: Bytes, offset: nat, e: Entry)
    requires Fits(e) && StandsAt(b, offset, Local(e))
    ensures ReadLocal(b, offset) == Some(StoredEntry(e))
  {
    hide LocalHeader, U16, U32;
    var h := LocalHeader(e);
    StandsPart(b, offset, h, e.name, e.body);
    LocalFields(e);
    SameNumbers(b, offset, h, 0);
    SameNumbers(b, offset, h, 4);
    SameNumbers(b, offset, h, 6);
    SameNumbers(b, offset, h, 8);
    SameNumbers(b, offset, h, 10);
    SameNumbers(b, offset, h, 14);
    SameNumbers(b, offset, h, 18);
    SameNumbers(b, offset, h, 22);
    SameNumbers(b, offset, h, 26);
    SameNumbers(b, offset, h, 28);
  }

  lemma {:induction false} ReadsCentral(b: Bytes, at: nat, e: Entry, offset: nat)
    requires Fits(e) && offset < 0x1_0000_0000 && StandsAt(b, at, Central(e, offset))
    ensures at + 46 <= |b| && U32(b, at) == CENTRAL_SIGNATURE
    ensures U16(b, at + 28) == |e.name| && U16(b, at + 30) == 0 && U16(b, at + 32) == 0
    ensures U32(b, at + 20) == |e.body| && U32(b, at + 42) == offset
    ensures at + 46 + U16(b, at + 28) <= |b| && Agrees(b, at, StoredEntry(e))
  {
    hide CentralHeader, U16, U32;
    var h := CentralHeader(e, offset);
    assert Central(e, offset) == h + e.name + [];
    StandsPart(b, at, h, e.name, []);
    CentralFields(e, offset);
    SameNumbers(b, at, h, 0);
    SameNumbers(b, at, h, 6);
    SameNumbers(b, at, h, 8);
    SameNumbers(b, at, h, 10);
    SameNumbers(b, at, h, 12);
    SameNumbers(b, at, h, 16);
    SameNumbers(b, at, h, 20);
    SameNumbers(b, at, h, 24);
    SameNumbers(b, at, h, 28);
    SameNumbers(b, at, h, 30);
    SameNumbers(b, at, h, 32);
    SameNumbers(b, at, h, 34);
    SameNumbers(b, at, h, 42);
  }

  /** Where an entry and its directory record stand in what is written. */
  lemma {:induction false} PlacesOf(es: seq<Entry>, i: nat, n: nat)
    requires i < n <= |es|
    ensures StandsAt(Locals(es, n), |Locals(es, i)|, Local(es[i]))
    ensures StandsAt(Directory(es, n), |Directory(es, i)|, Central(es[i], |Locals(es, i)|))
  {
    hide Local, Central;
    if i == n - 1 {
      StandsLast(Locals(es, i), Local(es[i]));
      StandsLast(Directory(es, i), Central(es[i], |Locals(es, i)|));
    } else {
      PlacesOf(es, i, n - 1);
      StandsLonger(Locals(es, n - 1), |Locals(es, i)|, Local(es[i]), Local(es[n - 1]));
      StandsLonger(Directory(es, n - 1), |Directory(es, i)|, Central(es[i], |Locals(es, i)|),
                   Central(es[n - 1], |Locals(es, n - 1)|));
    }
  }

  lemma StandsLast(b: Bytes, x: Bytes)
    ensures StandsAt(b + x, |b|, x)
  {
  }

  lemma StandsLonger(b: Bytes, i: nat, x: Bytes, more: Bytes)
    requires StandsAt(b, i, x)
    ensures StandsAt(b + more, i, x)
  {
    assert (b + more)[i..i + |x|] == b[i..i + |x|];
  }

  lemma StandsBehind(p: Bytes, b: Bytes, i: nat, x: Bytes)
    requires StandsAt(b, i, x)
    ensures StandsAt(p + b, |p| + i, x)
  {
    assert (p + b)[|p| + i..|p| + i + |x|] == b[i..i + |x|];
  }

  function StoredFrom(es: seq<Entry>, i: nat): seq<Stored>
    requires i <= |es|
    decreases |es| - i
  {
    if i == |es| then [] else [StoredEntry(es[i])] + StoredFrom(es, i + 1)
  }

  /** Both headers of an entry stand in the archive, the local one at the recorded offset. */
  lemma {:induction false} HeadersStand(es: seq<Entry>, i: nat)
    requires i < |es|
    ensures StandsAt(Archive(es), |Locals(es, i)|, Local(es[i]))
    ensures StandsAt(Archive(es), |Locals(es, |es|)| + |Directory(es, i)|, Central(es[i], |Locals(es, i)|))
  {
    hide Locals, Directory, Local, Central, EndRecord;
    var n := |es|;
    var ls, ds, end := Locals(es, n), Directory(es, n), EndRecord(n, |Directory(es, n)|, |Locals(es, n)|);
    PlacesOf(es, i, n);
    StandsLonger(ls, |Locals(es, i)|, Local(es[i]), ds);
    StandsLonger(ls + ds, |Locals(es, i)|, Local(es[i]), end);
    StandsBehind(ls, ds, |Directory(es, i)|, Central(es[i], |Locals(es, i)|));
    StandsLonger(ls + ds, |ls| + |Directory(es, i)|, Central(es[i], |Locals(es, i)|), end);
  }

  lemma NextRecord(es: seq<Entry>, i: nat)
    requires i < |es|
    ensures |Directory(es, i + 1)| == |Directory(es, i)| + 46 + |es[i].name|
  {
    hide CentralHeader;
  }

  lemma CentralLength(e: Entry, offset: nat)
    ensures |Central(e, offset)| == 46 + |e.name|
  {
    hide CentralHeader;
  }

  lemma {:induction false} OffsetFits(es: seq<Entry>, i: nat)
    requires Writable(es) && i <= |es|
    ensures |Locals(es, i)| < 0x1_0000_0000 && |es| < 0x1_0000 && |Directory(es, |es|)| < 0x1_0000_0000
    ensures i < |es| ==> Fits(es[i])
  {
    hide Local, Directory, EndRecord;
    if i < |es| {
      PlacesOf(es, i, |es|);
    }
  }

  lemma {:induction false} ReadsDirectory(es: seq<Entry>, i: nat)
    requires Writable(es) && i <= |es|
    ensures ReadDirectory(Archive(es), |Locals(es, |es|)| + |Directory(es, i)|, |es| - i) == Some(StoredFrom(es, i))
    decreases |es| - i
  {
    hide Archive, Locals, Directory, Local, Central, ReadLocal, U32, U16, Writable, Fits, Agrees;
    if i < |es| {
      var at := |Locals(es, |es|)| + |Directory(es, i)|;
      HeadersStand(es, i);
      OffsetFits(es, i);
      ReadsCentral(Archive(es), at, es[i], |Locals(es, i)|);
      ReadsLocal(Archive(es), |Locals(es, i)|, es[i]);
      NextRecord(es, i);
      assert at + 46 + |es[i].name| <= |Archive(es)| by { CentralLength(es[i], |Locals(es, i)|); }
      ReadsDirectory(es, i + 1);
    }
  }

  /**
   * Written archives read back: following the end record to the directory to the local headers gives every
   * name and compressed body in order.
   */
  lemma {:induction false} ReadsArchive(es: seq<Entry>)
    requires Writable(es)
    ensures ReadArchive(Archive(es)) == Some(StoredFrom(es, 0))
  {
    hide Archive, Locals, Directory, EndRecord, ReadDirectory, Writable, U16, U32, StoredFrom;
    EndRead(es);
    ArchiveLength(es);
    NoRecords(es);
    ReadsDirectory(es, 0);
  }

  lemma {:induction false} EndRead(es: seq<Entry>)
    requires Writable(es)
    ensures var b := Archive(es);
            |b| >= 22 && U32(b, |b| - 22) == END_SIGNATURE && U16(b, |b| - 2) == 0 &&
            U32(b, |b| - 6) == |Locals(es, |es|)| && U16(b, |b| - 12) == |es| &&
            U16(b, |b| - 18) == 0 && U16(b, |b| - 16) == 0 && U16(b, |b| - 14) == |es| &&
            U32(b, |b| - 10) == |Directory(es, |es|)|
  {
    hide Archive, Locals, Directory, EndRecord, Writable, U16, U32;
    var n := |es|;
    var b, end := Archive(es), EndRecord(n, |Directory(es, n)|, |Locals(es, n)|);
    EndStands(es);
    OffsetFits(es, n);
    EndFields(n, |Directory(es, n)|, |Locals(es, n)|);
    SameNumbers(b, |b| - 22, end, 0);
    SameNumbers(b, |b| - 22, end, 4);
    SameNumbers(b, |b| - 22, end, 6);
    SameNumbers(b, |b| - 22, end, 8);
    SameNumbers(b, |b| - 22, end, 10);
    SameNumbers(b, |b| - 22, end, 12);
    SameNumbers(b, |b| - 22, end, 16);
    SameNumbers(b, |b| - 22, end, 20);
  }

  lemma EndStands(es: seq<Entry>)
    ensures |Archive(es)| >= 22
    ensures StandsAt(Archive(es), |Archive(es)| - 22, EndRecord(|es|, |Directory(es, |es|)|, |Locals(es, |es|)|))
  {
    StandsLast(Locals(es, |es|) + Directory(es, |es|), EndRecord(|es|, |Directory(es, |es|)|, |Locals(es, |es|)|));
    hide Locals, Directory, EndRecord;
  }

  lemma ArchiveLength(es: seq<Entry>)
    ensures |Archive(es)| == |Locals(es, |es|)| + |Directory(es, |es|)| + 22
  {
    hide Locals, Directory;
  }

  lemma NoRecords(es: seq<Entry>)
    ensures |Directory(es, 0)| == 0
  {
  }

  // ---------------------------------------------------------------- offsets and flags

  /** The local parts of two neighbours touch: every offset is the sum of the lengths before it. */
  lemma LocalsTouch(es: seq<Entry>, i: nat)
    requires i < |es|
    ensures |Locals(es, i + 1)| == |Locals(es, i)| + 30 + |es[i].name| + |es[i].body|
  {
    hide LocalHeader;
  }

  /**
   * The flags announce a data descriptor (bit 3, section 4.4.4), yet no descriptor is written: a local part
   * ends with its body, and its header holds the sizes itself. A reader that goes by the directory is not
   * misled; one that goes by the flags would look for a descriptor in the next header.
   */
  lemma {:induction false} DescriptorAnnouncedButAbsent(e: Entry)
    requires Fits(e)
    ensures var h := LocalHeader(e);
            U16(h, 6) / 8 % 2 == 1 && U32(h, 18) == |e.body| && Local(e)[30 + |e.name|..] == e.body
  {
    hide B0, B1, B2, B3;
    FlagsAndLength(e);
    hide LocalHeader;
    assert Local(e)[30 + |e.name|..] == e.body;
  }

  lemma {:induction false} FlagsAndLength(e: Entry)
    requires Fits(e)
    ensures var h := LocalHeader(e); U16(h, 6) == 8 && U32(h, 18) == |e.body|
  {
    var h := LocalHeader(e);
    assert h[6] == 8 && h[7] == 0;
    Small16(h, 6);
    assert h[18] == B0(|e.body|) && h[19] == B1(|e.body|) && h[20] == B2(|e.body|) && h[21] == B3(|e.body|);
    hide B0, B1, B2, B3, LocalHeader;
    Number32At(h, 18, |e.body|);
  }

  // ---------------------------------------------------------------- the writer

  function EntriesOf(c: Codec, files: seq<File>, n: nat): (es: seq<Entry>)
    requires n <= |files|
    ensures |es| == n
  {
    if n == 0 then [] else EntriesOf(c, files, n - 1) + [EntryOf(c, files[n - 1])]
  }

  lemma {:induction false} PartsOfMore(es: seq<Entry>, e: Entry, n: nat)
    requires n <= |es|
    ensures Locals(es + [e], n) == Locals(es, n) && Directory(es + [e], n) == Directory(es, n)
  {
    hide Local, Central;
    if n == 0 {
    } else {
      PartsOfMore(es, e, n - 1);
    }
  }

  /** A number that does not fit its field, or an archive that is too large, is an error. */
  method WriteArchive(c: Codec, files: seq<File>) returns (archive: Option<Bytes>)
    ensures var es := EntriesOf(c, files, |files|);
            archive == (if Writable(es) then Some(Archive(es)) else None)
    ensures archive.Some? ==> |archive.value| <= 52_428_800 && |files| <= 65_535
  {
    hide Local, Central, LocalHeader, CentralHeader, EndRecord, EntryOf, Fits;
    var chunks: Bytes, central: Bytes, offset := [], [], 0;
    for n := 0 to |files|
      invariant var es := EntriesOf(c, files, n);
        chunks == Locals(es, n) && central == Directory(es, n) && offset == |chunks| &&
        forall i :: 0 <= i < n ==> Fits(es[i])
    {
      ghost var es := EntriesOf(c, files, n);
      var e := EntryOf(c, files[n]);
      PartsOfMore(es, e, n);
      OneMoreEntry(c, files, n);
      if !Fits(e) || offset >= 0x1_0000_0000 {
        NotWritable(c, files, n);
        return None;
      }
      LocalLength(e);
      chunks := chunks + Local(e);
      central := central + Central(e, offset);
      offset := offset + 30 + |e.name| + |e.body|;
    }
    var end := EndRecord(|files|, |central|, offset);
    var output := chunks + central + end;
    if |files| >= 0x1_0000 || |output| > MAX_REPORT_BYTES {
      return None;
    }
    return Some(output);
  }

  lemma LocalLength(e: Entry)
    ensures |Local(e)| == 30 + |e.name| + |e.body|
  {
    hide LocalHeader;
  }

  lemma OneMoreEntry(c: Codec, files: seq<File>, n: nat)
    requires n < |files|
    ensures EntriesOf(c, files, n + 1) == EntriesOf(c, files, n) + [EntryOf(c, files[n])]
  {
  }

  lemma {:induction false} EntriesPrefix(c: Codec, files: seq<File>, m: nat, n: nat)
    requires m <= n <= |files|
    ensures EntriesOf(c, files, n)[..m] == EntriesOf(c, files, m)
  {
    hide EntryOf;
    if m < n {
      EntriesPrefix(c, files, m, n - 1);
    }
  }

  lemma {:induction false} LocalsGrow(es: seq<Entry>, m: nat, n: nat)
    requires m <= n <= |es|
    ensures |Locals(es, m)| <= |Locals(es, n)|
  {
    hide Local;
    if m < n {
      LocalsGrow(es, m, n - 1);
    }
  }

  /** What is written for the first entries depends on them alone. */
  lemma {:induction false} SameLocals(es: seq<Entry>, fs: seq<Entry>, m: nat)
    requires m <= |es| && m <= |fs| && es[..m] == fs[..m]
    ensures Locals(es, m) == Locals(fs, m)
  {
    hide Local;
    if m == 0 {
    } else {
      assert es[..m - 1] == es[..m][..m - 1] == fs[..m][..m - 1] == fs[..m - 1];
      assert es[m - 1] == es[..m][m - 1] == fs[..m][m - 1] == fs[m - 1];
      SameLocals(es, fs, m - 1);
    }
  }

  /** An entry that cannot be written, or stands too far out, spoils the whole archive. */
  lemma {:induction false} NotWritable(c: Codec, files: seq<File>, n: nat)
    requires n < |files|
    requires !Fits(EntryOf(c, files[n])) || |Locals(EntriesOf(c, files, n), n)| >= 0x1_0000_0000
    ensures !Writable(EntriesOf(c, files, |files|))
  {
    hide Local, EntryOf, Directory, EndRecord;
    var es := EntriesOf(c, files, |files|);
    EntriesPrefix(c, files, n, |files|);
    EntriesPrefix(c, files, n + 1, |files|);
    assert es[n] == es[..n + 1][n] == EntryOf(c, files[n]);
    SameLocals(es, EntriesOf(c, files, n), n);
    LocalsGrow(es, n, |files|);
  }

  /**
   * Any file list within the limits is written, and reads back in order: names, compressed bodies, and for each the
   * checksum and length of the file's own body.
   */
  lemma {:induction false} FilesReadBack(c: Codec, files: seq<File>)
    requires Writable(EntriesOf(c, files, |files|))
    ensures var read := ReadArchive(Archive(EntriesOf(c, files, |files|)));
            read.Some? && |read.value| == |files| &&
            forall i :: 0 <= i < |files| ==>
              read.value[i] == Stored(Encode(files[i].name), 20, 8, 8, 0, c.crc32(files[i].body), |files[i].body|,
                                      c.deflate(files[i].body))
  {
    hide Writable, Archive, ReadArchive;
    var es := EntriesOf(c, files, |files|);
    ReadsArchive(es);
    StoredAll(c, files, 0);
  }

  lemma {:induction false} StoredAll(c: Codec, files: seq<File>, i: nat)
    requires i <= |files|
    ensures var es, s := EntriesOf(c, files, |files|), StoredFrom(EntriesOf(c, files, |files|), i);
            |s| == |files| - i &&
            forall k :: i <= k < |files| ==>
              s[k - i] == Stored(Encode(files[k].name), 20, 8, 8, 0, c.crc32(files[k].body), |files[k].body|,
                                 c.deflate(files[k].body))
    decreases |files| - i
  {
    hide Encode;
    if i < |files| {
      StoredAll(c, files, i + 1);
      EntriesPrefix(c, files, i + 1, |files|);
      assert EntriesOf(c, files, |files|)[i] == EntriesOf(c, files, |files|)[..i + 1][i];
    }
  }

  // ---------------------------------------------------------------- column names

  predicate Letters(s: string) {
    forall i :: 0 <= i < |s| ==> 'A' <= s[i] <= 'Z'
  }

  /** The number that a string of letters stands for: base 26 with digits from 1 to 26. */
  function ColumnNumber(s: string): nat
    requires Letters(s)
  {
    if s == "" then 0 else ColumnNumber(s[..|s| - 1]) * 26 + (s[|s| - 1] as int - 64)
  }

  function Letter(d: nat): char
    requires d < 26
  {
    (65 + d) as char
  }

  function NameOf(number: nat): (s: string)
    ensures Letters(s)
  {
    if number == 0 then "" else NameOf((number - 1) / 26) + [Letter((number - 1) % 26)]
  }

  lemma {:induction false} NumberOfName(n: nat)
    ensures ColumnNumber(NameOf(n)) == n
  {
    if n == 0 {
    } else {
      var s := NameOf(n);
      NumberOfName((n - 1) / 26);
      assert s[..|s| - 1] == NameOf((n - 1) / 26);
    }
  }

  lemma {:induction false} NameOfColumn(s: string)
    requires Letters(s)
    ensures NameOf(ColumnNumber(s)) == s
  {
    if s == "" {
    } else {
      var d := s[|s| - 1] as int - 65;
      NameOfColumn(s[..|s| - 1]);
      var n := ColumnNumber(s);
      assert n - 1 == ColumnNumber(s[..|s| - 1]) * 26 + d && (n - 1) / 26 == ColumnNumber(s[..|s| - 1]) &&
          (n - 1) % 26 == d;
      assert s == s[..|s| - 1] + [s[|s| - 1]];
    }
  }

  /** The name of the column at an index: the one string of letters that stands for the index plus one. */
  method ColumnName(index: nat) returns (value: string)
    ensures Letters(value) && ColumnNumber(value) == index + 1
    ensures forall s: string {:trigger ColumnNumber(s)} :: Letters(s) && ColumnNumber(s) == index + 1 ==> s == value
  {
    hide NameOf, ColumnNumber;
    value := "";
    var current: nat := index + 1;
    while current > 0
      invariant Letters(value) && NameOf(current) + value == NameOf(index + 1)
    {
      NameStep(current, value);
      value := [Letter((current - 1) % 26)] + value;
      current := (current - 1) / 26;
    }
    NoName();
    assert value == NameOf(0) + value == NameOf(index + 1);
    OnlyName(index + 1);
  }

  lemma NameStep(n: nat, value: string)
    requires n > 0
    ensures NameOf(n) + value == NameOf((n - 1) / 26) + ([Letter((n - 1) % 26)] + value)
  {
  }

  lemma NoName()
    ensures NameOf(0) == ""
  {
  }

  lemma OnlyName(n: nat)
    ensures Letters(NameOf(n)) && ColumnNumber(NameOf(n)) == n
    ensures forall s: string {:trigger ColumnNumber(s)} :: Letters(s) && ColumnNumber(s) == n ==> s == NameOf(n)
  {
    NumberOfName(n);
    forall s: string | Letters(s) && ColumnNumber(s) == n ensures s == NameOf(n) {
      NameOfColumn(s);
    }
  }
}
