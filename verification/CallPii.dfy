/**
 * Encrypted personal fields of calls and leads: the authenticated data that binds an envelope to its
 * place, encryption and decryption under changing keyrings, and look-up by blind index.
 */
module CallPii {
  import opened Common
  import opened Utf8

  // ---------------------------------------------------------------- byte strings

  const FOUR_BYTES: nat := 0x1_0000_0000

  predicate IsAscii(s: string) {
    forall i :: 0 <= i < |s| ==> s[i] < 128 as char
  }

  function Ascii(s: string): (b: Bytes)
    requires IsAscii(s)
    ensures |b| == |s| && forall i :: 0 <= i < |s| ==> b[i] == s[i] as int
  {
    seq(|s|, i requires 0 <= i < |s| => s[i] as int)
  }

  /** `String(n)` for a natural number. */
  function Decimal(n: nat): (b: Bytes)
    ensures 0 < |b|
  {
    if n < 10 then [48 + n] else Decimal(n / 10) + [48 + n % 10]
  }

  function ValueOf(b: Bytes): int {
    if b == [] then 0 else ValueOf(b[..|b| - 1]) * 10 - 48 + b[|b| - 1]
  }

  lemma {:induction false} DecimalValue(n: nat)
    ensures ValueOf(Decimal(n)) == n
  {
    if n < 10 {
      assert Decimal(n)[..0] == [];
    } else {
      DecimalValue(n / 10);
      assert Decimal(n)[..|Decimal(n)| - 1] == Decimal(n / 10);
    }
  }

  lemma {:induction false} DecimalShort(n: nat, digits: nat)
    requires n < Power10(digits) && digits > 0
    ensures |Decimal(n)| <= digits
    decreases digits
  {
    if n < 10 {
    } else {
      var less := Power10(digits - 1);
      assert n < 10 * less;
      assert digits > 1;
      hide Power10;
      TenTimes(n, less);
      DecimalShort(n / 10, digits - 1);
    }
  }

  lemma TenTimes(n: nat, less: nat)
    requires n < 10 * less
    ensures n / 10 < less
  {
  }

  function Power10(n: nat): nat {
    if n == 0 then 1 else 10 * Power10(n - 1)
  }

  lemma Power10Sixteen()
    ensures Power10(16) > MAX_SAFE
  {
    assert Power10(4) == 10_000;
    assert Power10(8) == 10_000 * Power10(4) by {
      assert Power10(6) == 100 * Power10(4);
    }
    assert Power10(12) == 10_000 * Power10(8) by {
      assert Power10(10) == 100 * Power10(8);
    }
    assert Power10(16) == 10_000 * Power10(12) by {
      assert Power10(14) == 100 * Power10(12);
    }
  }

  /** A length in four bytes, the most significant first. */
  function Be32(n: nat): Bytes
    requires n < FOUR_BYTES
  {
    [n / 0x100_0000, n / 0x1_0000 % 0x100, n / 0x100 % 0x100, n % 0x100]
  }

  function FromBytes(a: int, b: int, c: int, d: int): int {
    ((a * 0x100 + b) * 0x100 + c) * 0x100 + d
  }

  lemma Be32Sum(n: nat)
    requires n < FOUR_BYTES
    ensures var b := Be32(n); n == FromBytes(b[0], b[1], b[2], b[3])
  {
    assert n == n / 0x100 * 0x100 + n % 0x100;
    assert n / 0x100 == n / 0x1_0000 * 0x100 + n / 0x100 % 0x100;
    assert n / 0x1_0000 == n / 0x100_0000 * 0x100 + n / 0x1_0000 % 0x100;
  }

  lemma {:induction false} Be32Injective(m: nat, n: nat)
    requires m < FOUR_BYTES && n < FOUR_BYTES && Be32(m) == Be32(n)
    ensures m == n
  {
    Be32Sum(m);
    Be32Sum(n);
  }

  function LengthPrefixed(b: Bytes): Bytes
    requires |b| < FOUR_BYTES
  {
    Be32(|b|) + b
  }

  ghost predicate Framable(parts: seq<Bytes>) {
    forall i :: 0 <= i < |parts| ==> |parts[i]| < FOUR_BYTES
  }

  /** The parts one after the other, each behind its length. */
  function Frame(parts: seq<Bytes>): Bytes
    requires Framable(parts)
  {
    if parts == [] then [] else LengthPrefixed(parts[0]) + Frame(parts[1..])
  }

  /** A length-prefixed part can be taken off the front in one way only. */
  lemma PrefixInjective(a: Bytes, x: Bytes, b: Bytes, y: Bytes)
    requires |a| < FOUR_BYTES && |b| < FOUR_BYTES && LengthPrefixed(a) + x == LengthPrefixed(b) + y
    ensures a == b && x == y
  {
    var p, q := LengthPrefixed(a) + x, LengthPrefixed(b) + y;
    assert p[..4] == Be32(|a|) && q[..4] == Be32(|b|);
    Be32Injective(|a|, |b|);
    assert p[4..4 + |a|] == a && q[4..4 + |b|] == b;
    assert p[4 + |a|..] == x && q[4 + |b|..] == y;
  }

  /** Framing is injective on lists of any length. */
  lemma {:induction false} FrameInjective(p: seq<Bytes>, q: seq<Bytes>)
    requires Framable(p) && Framable(q) && Frame(p) == Frame(q)
    ensures p == q
  {
    if p != [] && q != [] {
      PrefixInjective(p[0], Frame(p[1..]), q[0], Frame(q[1..]));
      FrameInjective(p[1..], q[1..]);
      assert p == [p[0]] + p[1..] && q == [q[0]] + q[1..];
    }
  }

  /** Takes one length-prefixed part off the front. */
  function TakeFrame(b: Bytes): (r: Option<(Bytes, Bytes)>)
    ensures r.Some? ==> |r.value.1| < |b|
  {
    if |b| < 4 then None
    else
      var end := 4 + FromBytes(b[0], b[1], b[2], b[3]);
      if end > |b| then None else Some((b[4..end], b[end..]))
  }

  /** The parts of a framed message. */
  function ReadFrames(b: Bytes): Option<seq<Bytes>>
    decreases |b|
  {
    if b == [] then Some([])
    else
      var first := TakeFrame(b);
      if first.None? then None
      else
        var rest := ReadFrames(first.value.1);
        if rest.None? then None else Some([first.value.0] + rest.value)
  }

  lemma TakesFrame(a: Bytes, x: Bytes)
    requires |a| < FOUR_BYTES
    ensures TakeFrame(LengthPrefixed(a) + x) == Some((a, x))
  {
    var b := LengthPrefixed(a) + x;
    Be32Sum(|a|);
    assert b[..4] == Be32(|a|);
    assert b[4..4 + |a|] == a && b[4 + |a|..] == x;
  }

  /** What is framed reads back, whatever the number of parts. */
  lemma {:induction false} FramesReadBack(parts: seq<Bytes>)
    requires Framable(parts)
    ensures ReadFrames(Frame(parts)) == Some(parts)
  {
    if parts == [] {
    } else {
      TakesFrame(parts[0], Frame(parts[1..]));
      FramesReadBack(parts[1..]);
      hide TakeFrame, LengthPrefixed;
      assert parts == [parts[0]] + parts[1..];
    }
  }

  /** The bytes spell the text. */
  ghost predicate Spells(b: Bytes, s: string) {
    |b| == |s| && forall i :: 0 <= i < |s| ==> b[i] == s[i] as int
  }

  /** The bytes spell the identifier, with its letters in lower case. */
  ghost predicate SpellsLower(b: Bytes, s: string) {
    |b| == |s| && forall i :: 0 <= i < |s| ==> b[i] == s[i] as int + if 'A' <= s[i] <= 'F' then 32 else 0
  }

  // ---------------------------------------------------------------- identities

  datatype Field = PhoneNumber | AlternatePhoneNumber | ContactName

  function FieldName(f: Field): (s: string)
    ensures IsAscii(s) && 0 < |s| < 100
  {
    match f
    case PhoneNumber => "phone_number"
    case AlternatePhoneNumber => "alternate_phone_number"
    case ContactName => "contact_name"
  }

  lemma FieldNamesDiffer(f: Field, g: Field)
    requires Ascii(FieldName(f)) == Ascii(FieldName(g))
    ensures f == g
  {
    assert |FieldName(f)| == |FieldName(g)|;
    assert Ascii(FieldName(f))[0] == Ascii(FieldName(g))[0];
  }

  predicate IsHex(c: char) {
    '0' <= c <= '9' || 'a' <= c <= 'f' || 'A' <= c <= 'F'
  }

  predicate IsUuid(s: string) {
    |s| == 36 && forall i :: 0 <= i < 36 ==> if i in {8, 13, 18, 23} then s[i] == '-' else IsHex(s[i])
  }

  function LowerChar(c: char): char {
    if 'A' <= c <= 'F' then c + 32 as char else c
  }

  /** The canonical form of a UUID. */
  function Canonical(s: string): (c: string)
    requires IsUuid(s)
    ensures IsAscii(c) && |c| == 36
  {
    assert forall i :: 0 <= i < 36 ==> s[i] < 128 as char;
    seq(36, i requires 0 <= i < 36 => LowerChar(s[i]))
  }

  /** The two spell the same identifier: they are equal up to the case of the letters. */
  ghost predicate SameIdentifier(s: string, t: string) {
    |s| == |t| && forall i :: 0 <= i < |s| ==>
      s[i] == t[i] || ('A' <= s[i] <= 'F' && t[i] as int == s[i] as int + 32) ||
      ('A' <= t[i] <= 'F' && s[i] as int == t[i] as int + 32)
  }

  lemma CanonicalTells(s: string, t: string)
    requires IsUuid(s) && IsUuid(t)
    ensures Canonical(s) == Canonical(t) <==> SameIdentifier(s, t)
  {
    if Canonical(s) == Canonical(t) {
      forall i | 0 <= i < 36
        ensures s[i] == t[i] || ('A' <= s[i] <= 'F' && t[i] as int == s[i] as int + 32) ||
                ('A' <= t[i] <= 'F' && s[i] as int == t[i] as int + 32)
      {
        assert Canonical(s)[i] == Canonical(t)[i];
      }
    }
  }

  lemma AsciiInjective(s: string, t: string)
    requires IsAscii(s) && IsAscii(t) && Ascii(s) == Ascii(t)
    ensures s == t
  {
    forall i | 0 <= i < |s| ensures s[i] == t[i] {
      assert Ascii(s)[i] == Ascii(t)[i];
    }
  }

  // ---------------------------------------------------------------- authenticated data

  const FORMAT: nat := 2
  const LEGACY_FORMAT: nat := 1
  const LEGACY_INDEX_VERSION: nat := 1
  const MAX_SAFE: nat := 0x20_0000_0000_0000

  datatype Context = Context(organizationId: string, rowId: string, field: Field)

  datatype Envelope = Envelope(
    formatVersion: nat, keyVersion: nat, indexVersion: nat, nonce: Bytes, ciphertext: Bytes, blindIndex: Bytes)

  /** The tests on an envelope that precede decryption. */
  predicate Acceptable(e: Envelope) {
    && (e.formatVersion == LEGACY_FORMAT || e.formatVersion == FORMAT)
    && 0 < e.keyVersion < MAX_SAFE && 0 < e.indexVersion < MAX_SAFE
    && (e.formatVersion == LEGACY_FORMAT ==> e.indexVersion == LEGACY_INDEX_VERSION)
    && |e.nonce| == 12 && |e.ciphertext| >= 16 && |e.blindIndex| == 32
  }

  predicate Addressable(ctx: Context) {
    IsUuid(ctx.organizationId) && IsUuid(ctx.rowId)
  }

  function Parts(ctx: Context, format: nat, keyVersion: nat, indexVersion: nat, blindIndex: Bytes): seq<Bytes>
    requires Addressable(ctx)
  {
    [Ascii("callora:call-log-pii:aes-256-gcm"), Decimal(format), Decimal(keyVersion)] +
    (if format == FORMAT then [Decimal(indexVersion)] else []) +
    [Ascii(Canonical(ctx.organizationId)), Ascii(Canonical(ctx.rowId)), Ascii(FieldName(ctx.field)), blindIndex]
  }

  lemma PartsFramable(ctx: Context, format: nat, keyVersion: nat, indexVersion: nat, blindIndex: Bytes)
    requires Addressable(ctx) && format < 10 && keyVersion < MAX_SAFE && indexVersion < MAX_SAFE && |blindIndex| < 100
    ensures Framable(Parts(ctx, format, keyVersion, indexVersion, blindIndex))
  {
    Power10Sixteen();
    DecimalShort(keyVersion, 16);
    DecimalShort(indexVersion, 16);
  }

  /** The bytes that authenticate an envelope, or nothing where the source throws. */
  function AuthenticatedData(ctx: Context, format: nat, keyVersion: nat, indexVersion: nat,
                             blindIndex: Bytes): Option<Bytes>
  {
    if Addressable(ctx) && (format == FORMAT || format == LEGACY_FORMAT) &&
       keyVersion < MAX_SAFE && indexVersion < MAX_SAFE && |blindIndex| == 32
    then
      PartsFramable(ctx, format, keyVersion, indexVersion, blindIndex);
      Some(Frame(Parts(ctx, format, keyVersion, indexVersion, blindIndex)))
    else None
  }

  function DataOf(ctx: Context, e: Envelope): Option<Bytes> {
    AuthenticatedData(ctx, e.formatVersion, e.keyVersion, e.indexVersion, e.blindIndex)
  }

  lemma DecimalInjective(m: nat, n: nat)
    requires Decimal(m) == Decimal(n)
    ensures m == n
  {
    DecimalValue(m);
    DecimalValue(n);
  }

  /** The envelopes claim the same organization, row, field, versions and blind index. */
  ghost predicate SamePlace(c: Context, e: Envelope, d: Context, f: Envelope)
    requires Addressable(c) && Addressable(d)
  {
    && SameIdentifier(c.organizationId, d.organizationId) && SameIdentifier(c.rowId, d.rowId) && c.field == d.field
    && e.formatVersion == f.formatVersion && e.keyVersion == f.keyVersion && e.indexVersion == f.indexVersion
    && e.blindIndex == f.blindIndex
  }

  /**
   * Authenticated data is injective over all envelopes that decryption considers, in both formats: equal
   * bytes mean the same organization, row, field, versions and blind index.
   */
  lemma AuthenticatedDataInjective(c: Context, e: Envelope, d: Context, f: Envelope)
    requires Acceptable(e) && Acceptable(f) && Addressable(c) && Addressable(d) && DataOf(c, e) == DataOf(d, f)
    ensures SamePlace(c, e, d, f)
  {
    var p := Parts(c, e.formatVersion, e.keyVersion, e.indexVersion, e.blindIndex);
    var q := Parts(d, f.formatVersion, f.keyVersion, f.indexVersion, f.blindIndex);
    PartsFramable(c, e.formatVersion, e.keyVersion, e.indexVersion, e.blindIndex);
    PartsFramable(d, f.formatVersion, f.keyVersion, f.indexVersion, f.blindIndex);
    FrameInjective(p, q);
    PartsDetermine(c, e, d, f);
  }

  lemma PartsDetermine(c: Context, e: Envelope, d: Context, f: Envelope)
    requires Acceptable(e) && Acceptable(f) && Addressable(c) && Addressable(d)
    requires Parts(c, e.formatVersion, e.keyVersion, e.indexVersion, e.blindIndex) ==
             Parts(d, f.formatVersion, f.keyVersion, f.indexVersion, f.blindIndex)
    ensures SamePlace(c, e, d, f)
  {
    var p := Parts(c, e.formatVersion, e.keyVersion, e.indexVersion, e.blindIndex);
    var q := Parts(d, f.formatVersion, f.keyVersion, f.indexVersion, f.blindIndex);
    hide Decimal, Canonical, FieldName, IsUuid, SameIdentifier;
    assert p[1] == q[1] && p[2] == q[2];
    DecimalInjective(e.formatVersion, f.formatVersion);
    DecimalInjective(e.keyVersion, f.keyVersion);
    var n := |p|;
    assert n == |q| && n == if e.formatVersion == FORMAT then 8 else 7;
    assert p[n - 4] == q[n - 4] && p[n - 3] == q[n - 3] && p[n - 2] == q[n - 2] && p[n - 1] == q[n - 1];
    AsciiInjective(Canonical(c.organizationId), Canonical(d.organizationId));
    AsciiInjective(Canonical(c.rowId), Canonical(d.rowId));
    CanonicalTells(c.organizationId, d.organizationId);
    CanonicalTells(c.rowId, d.rowId);
    FieldNamesDiffer(c.field, d.field);
    if e.formatVersion == FORMAT {
      assert p[3] == q[3];
      DecimalInjective(e.indexVersion, f.indexVersion);
    }
  }

  ghost predicate SpellsField(b: Bytes, f: Field) {
    match f
    case PhoneNumber => Spells(b, "phone_number")
    case AlternatePhoneNumber => Spells(b, "alternate_phone_number")
    case ContactName => Spells(b, "contact_name")
  }

  /** The parts say, in order, what the envelope is and where it belongs. */
  ghost predicate Describe(p: seq<Bytes>, c: Context, e: Envelope) {
    var n := if e.formatVersion == 2 then 8 else 7;
    && |p| == n
    && Spells(p[0], "callora:call-log-pii:aes-256-gcm")
    && ValueOf(p[1]) == e.formatVersion && ValueOf(p[2]) == e.keyVersion
    && (n == 8 ==> ValueOf(p[3]) == e.indexVersion)
    && SpellsLower(p[n - 4], c.organizationId) && SpellsLower(p[n - 3], c.rowId)
    && SpellsField(p[n - 2], c.field) && p[n - 1] == e.blindIndex
  }

  /** The authenticated data reads back: its parts describe envelope and place. */
  lemma AuthenticatedDataReadsBack(c: Context, e: Envelope)
    requires Acceptable(e) && Addressable(c)
    ensures DataOf(c, e).Some? && ReadFrames(DataOf(c, e).value).Some? &&
            Describe(ReadFrames(DataOf(c, e).value).value, c, e)
  {
    var p := Parts(c, e.formatVersion, e.keyVersion, e.indexVersion, e.blindIndex);
    PartsFramable(c, e.formatVersion, e.keyVersion, e.indexVersion, e.blindIndex);
    FramesReadBack(p);
    DecimalValue(e.formatVersion);
    DecimalValue(e.keyVersion);
    DecimalValue(e.indexVersion);
    PartsDescribe(c, e);
    hide Parts, Frame, ReadFrames, Describe, Framable;
  }

  lemma PartsDescribe(c: Context, e: Envelope)
    requires Acceptable(e) && Addressable(c)
    requires ValueOf(Decimal(e.formatVersion)) == e.formatVersion && ValueOf(Decimal(e.keyVersion)) == e.keyVersion
    requires ValueOf(Decimal(e.indexVersion)) == e.indexVersion
    ensures Describe(Parts(c, e.formatVersion, e.keyVersion, e.indexVersion, e.blindIndex), c, e)
  {
    LowerSpelled(c.organizationId);
    LowerSpelled(c.rowId);
    FieldSpelled(c.field);
    hide Canonical, FieldName, SpellsLower, SpellsField, Decimal, ValueOf, IsUuid;
  }

  lemma LowerSpelled(s: string)
    requires IsUuid(s)
    ensures SpellsLower(Ascii(Canonical(s)), s)
  {
  }

  lemma FieldSpelled(f: Field)
    ensures SpellsField(Ascii(FieldName(f)), f)
  {
  }

  // ---------------------------------------------------------------- row identities

  datatype Source = MobileCallLog | Manual | TelephonyProvider | Import

  function SourceName(s: Source): (n: string)
    ensures IsAscii(n) && |n| < 100
  {
    match s
    case MobileCallLog => "mobile_call_log"
    case Manual => "manual"
    case TelephonyProvider => "telephony_provider"
    case Import => "import"
  }

  datatype RowIdentity = RowIdentity(organizationId: string, source: Source, deviceId: Option<string>, externalId: Text)

  const MAX_PLAINTEXT: nat := 65_536

  predicate Identifiable(r: RowIdentity) {
    IsUuid(r.organizationId) && (r.deviceId.Some? ==> IsUuid(r.deviceId.value)) &&
    r.externalId != [] && |Encode(r.externalId)| <= MAX_PLAINTEXT
  }

  function DeviceName(r: RowIdentity): (n: string)
    requires Identifiable(r)
    ensures IsAscii(n) && |n| < 100
  {
    if r.deviceId.Some? then Canonical(r.deviceId.value) else ""
  }

  function RowDomain(): (s: string)
    ensures IsAscii(s) && |s| < 100
  {
    "callora:call-log-row-id:v1"
  }

  function RowParts(r: RowIdentity): seq<Bytes>
    requires Identifiable(r)
  {
    [Ascii(RowDomain()), Ascii(Canonical(r.organizationId)), Ascii(SourceName(r.source)),
     Ascii(DeviceName(r)), Encode(r.externalId)]
  }

  lemma RowPartsFramable(r: RowIdentity)
    requires Identifiable(r)
    ensures Framable(RowParts(r))
  {
    hide Encode, Canonical, IsUuid, IsAscii;
    assert |Encode(r.externalId)| < FOUR_BYTES;
  }

  /** The message from which a row identifier is derived. */
  function RowMessage(r: RowIdentity): Bytes
    requires Identifiable(r)
  {
    RowPartsFramable(r);
    Frame(RowParts(r))
  }

  ghost predicate SpellsSource(b: Bytes, s: Source) {
    match s
    case MobileCallLog => Spells(b, "mobile_call_log")
    case Manual => Spells(b, "manual")
    case TelephonyProvider => Spells(b, "telephony_provider")
    case Import => Spells(b, "import")
  }

  /** The parts say, in order, which call it is; without a device the third one is empty. */
  ghost predicate DescribeRow(p: seq<Bytes>, r: RowIdentity) {
    && |p| == 5
    && Spells(p[0], "callora:call-log-row-id:v1") && SpellsLower(p[1], r.organizationId) && SpellsSource(p[2], r.source)
    && (if r.deviceId.Some? then SpellsLower(p[3], r.deviceId.value) else p[3] == [])
    && p[4] == Encode(r.externalId)
  }

  lemma RowMessageReadsBack(r: RowIdentity)
    requires Identifiable(r)
    ensures ReadFrames(RowMessage(r)).Some? && DescribeRow(ReadFrames(RowMessage(r)).value, r)
  {
    RowPartsFramable(r);
    FramesReadBack(RowParts(r));
    LowerSpelled(r.organizationId);
    if r.deviceId.Some? {
      LowerSpelled(r.deviceId.value);
    }
    assert SpellsSource(Ascii(SourceName(r.source)), r.source) by { SourceSpelled(r.source); }
    hide ReadFrames, Frame, Framable, Canonical, SourceName, SpellsLower, SpellsSource, Encode;
  }

  lemma SourceSpelled(s: Source)
    ensures SpellsSource(Ascii(SourceName(s)), s)
  {
  }

  /** Different calls have different messages: no part can be shifted into its neighbour. */
  lemma RowMessageInjective(r: RowIdentity, s: RowIdentity)
    requires Identifiable(r) && Identifiable(s) && RowMessage(r) == RowMessage(s)
    ensures SameIdentifier(r.organizationId, s.organizationId) && r.source == s.source
    ensures r.deviceId.Some? <==> s.deviceId.Some?
    ensures r.deviceId.Some? ==> SameIdentifier(r.deviceId.value, s.deviceId.value)
    ensures Scalars(r.externalId) == Scalars(s.externalId)
    ensures WellFormed(r.externalId) && WellFormed(s.externalId) ==> r.externalId == s.externalId
  {
    var p, q := RowParts(r), RowParts(s);
    RowPartsFramable(r);
    RowPartsFramable(s);
    FrameInjective(p, q);
    assert p[1] == q[1] && p[2] == q[2] && p[3] == q[3] && p[4] == q[4];
    AsciiInjective(Canonical(r.organizationId), Canonical(s.organizationId));
    AsciiInjective(SourceName(r.source), SourceName(s.source));
    AsciiInjective(DeviceName(r), DeviceName(s));
    CanonicalTells(r.organizationId, s.organizationId);
    if r.deviceId.Some? && s.deviceId.Some? {
      CanonicalTells(r.deviceId.value, s.deviceId.value);
    }
    assert |SourceName(r.source)| == |SourceName(s.source)|;
    assert SourceName(r.source)[1] == SourceName(s.source)[1];
    SameBytes(r.externalId, s.externalId);
  }

  // ---------------------------------------------------------------- cryptography

  /** The primitives: a keyed hash, and authenticated encryption with its inverse. */
  datatype Suite = Suite(
    hmac: (Bytes, Bytes) -> Bytes,
    seal: (Bytes, Bytes, Bytes, Bytes) -> Bytes,
    unseal: (Bytes, Bytes, Bytes, Bytes) -> Option<Bytes>)

  /** Hashes have 32 bytes, sealing appends a 16-byte tag, and unsealing undoes sealing. */
  ghost predicate Lawful(x: Suite) {
    && (forall k, m {:trigger x.hmac(k, m)} :: |x.hmac(k, m)| == 32)
    && (forall k, n, a, p {:trigger x.seal(k, n, a, p)} ::
          |x.seal(k, n, a, p)| == |p| + 16 && x.unseal(k, n, a, x.seal(k, n, a, p)) == Some(p))
  }

  // ---------------------------------------------------------------- row identifiers

  /** The sixteen bytes of an identifier: the first half of a digest, with version and variant written over six bits. */
  function IdentifierBytes(digest: Bytes): (b: Bytes)
    requires |digest| == 32
    ensures |b| == 16
  {
    digest[..16][6 := digest[6] % 0x10 + 0x80][8 := digest[8] % 0x40 + 0x80]
  }

  function HexDigit(n: int): (c: char)
    requires 0 <= n < 16
    ensures IsHex(c)
  {
    if n < 10 then '0' + n as char else 'a' + (n - 10) as char
  }

  function Hex(b: Bytes): (h: string)
    ensures |h| == 2 * |b| && forall i :: 0 <= i < |h| ==> IsHex(h[i])
  {
    if b == [] then "" else [HexDigit(b[0] / 16), HexDigit(b[0] % 16)] + Hex(b[1..])
  }

  lemma HexDigitInjective(m: int, n: int)
    requires 0 <= m < 16 && 0 <= n < 16 && HexDigit(m) == HexDigit(n)
    ensures m == n
  {
  }

  lemma {:induction false} HexInjective(a: Bytes, b: Bytes)
    requires Hex(a) == Hex(b)
    ensures a == b
  {
    assert |Hex(a)| == 2 * |a| && |Hex(b)| == 2 * |b|;
    if a == [] {
    } else {
      hide HexDigit;
      var g, h := Hex(a), Hex(b);
      assert g[0] == h[0] && g[1] == h[1] && g[2..] == Hex(a[1..]) && h[2..] == Hex(b[1..]);
      HexDigitInjective(a[0] / 16, b[0] / 16);
      HexDigitInjective(a[0] % 16, b[0] % 16);
      HexInjective(a[1..], b[1..]);
      assert a == [a[0]] + a[1..] && b == [b[0]] + b[1..];
    }
  }

  /** Dashes after 8, 12, 16 and 20 digits. */
  function Dashed(h: string): (s: string)
    requires |h| == 32
    ensures |s| == 36
  {
    h[..8] + "-" + h[8..12] + "-" + h[12..16] + "-" + h[16..20] + "-" + h[20..]
  }

  lemma DashedInjective(g: string, h: string)
    requires |g| == 32 && |h| == 32 && Dashed(g) == Dashed(h)
    ensures g == h
  {
    var s, t := Dashed(g), Dashed(h);
    assert s[..8] == g[..8] && s[9..13] == g[8..12] && s[14..18] == g[12..16];
    assert s[19..23] == g[16..20] && s[24..] == g[20..];
    assert t[..8] == h[..8] && t[9..13] == h[8..12] && t[14..18] == h[12..16];
    assert t[19..23] == h[16..20] && t[24..] == h[20..];
    assert g == g[..8] + g[8..12] + g[12..16] + g[16..20] + g[20..];
    assert h == h[..8] + h[8..12] + h[12..16] + h[16..20] + h[20..];
  }

  /** The identifier of a call's row, from the digest of its message. */
  ghost function RowId(x: Suite, key: Bytes, r: RowIdentity): string
    requires Lawful(x) && Identifiable(r)
  {
    Dashed(Hex(IdentifierBytes(x.hmac(key, RowMessage(r)))))
  }

  /** The two identities name the same call. */
  ghost predicate SameRow(r: RowIdentity, s: RowIdentity)
    requires Identifiable(r) && Identifiable(s)
  {
    && SameIdentifier(r.organizationId, s.organizationId) && r.source == s.source
    && (r.deviceId.Some? <==> s.deviceId.Some?)
    && (r.deviceId.Some? && s.deviceId.Some? ==> SameIdentifier(r.deviceId.value, s.deviceId.value))
    && Scalars(r.externalId) == Scalars(s.externalId)
  }

  /** The 122 bits of the digest that are kept do not collide on the two messages. */
  ghost predicate KeptApart(x: Suite, key: Bytes, m: Bytes, n: Bytes)
    requires Lawful(x)
  {
    IdentifierBytes(x.hmac(key, m)) == IdentifierBytes(x.hmac(key, n)) ==> m == n
  }

  /**
   * Row identifiers are equal exactly for the same call, up to the spelling of identifiers and to lone surrogates
   * in the external identifier, unless the kept part of the digest collides.
   */
  lemma RowIdExactly(x: Suite, key: Bytes, r: RowIdentity, s: RowIdentity)
    requires Lawful(x) && Identifiable(r) && Identifiable(s)
    requires KeptApart(x, key, RowMessage(r), RowMessage(s))
    ensures RowId(x, key, r) == RowId(x, key, s) <==> SameRow(r, s)
  {
    var a, b := IdentifierBytes(x.hmac(key, RowMessage(r))), IdentifierBytes(x.hmac(key, RowMessage(s)));
    if RowId(x, key, r) == RowId(x, key, s) {
      DashedInjective(Hex(a), Hex(b));
      HexInjective(a, b);
      RowMessageInjective(r, s);
    }
    if SameRow(r, s) {
      SameRowSameMessage(r, s);
    }
    hide Hex, Dashed, IdentifierBytes, RowMessage, Identifiable, Canonical;
  }

  function HexValue(c: char): int {
    if c <= '9' then c as int - 48 else c as int - 87
  }

  /** Where the two digits of byte `i` stand in a dashed identifier. */
  function DigitsOf(i: nat): nat {
    2 * i + if i < 4 then 0 else if i < 6 then 1 else if i < 8 then 2 else if i < 10 then 3 else 4
  }

  /** The byte whose digits stand at `i` in the identifier. */
  function ByteIn(id: string, i: nat): int
    requires |id| == 36 && i < 16
  {
    HexValue(id[DigitsOf(i)]) * 16 + HexValue(id[DigitsOf(i) + 1])
  }

  lemma {:induction false} HexAt(b: Bytes, i: nat)
    requires i < |b|
    ensures HexValue(Hex(b)[2 * i]) * 16 + HexValue(Hex(b)[2 * i + 1]) == b[i]
  {
    var h := Hex(b);
    assert |h| == 2 * |b|;
    if i == 0 {
    } else {
      HexAt(b[1..], i - 1);
      assert h[2..] == Hex(b[1..]) && h[2 * i] == h[2..][2 * (i - 1)] && h[2 * i + 1] == h[2..][2 * (i - 1) + 1];
    }
  }

  lemma DashedAt(h: string, i: nat)
    requires |h| == 32 && i < 16
    ensures Dashed(h)[DigitsOf(i)] == h[2 * i] && Dashed(h)[DigitsOf(i) + 1] == h[2 * i + 1]
  {
  }

  /** A row identifier is a UUID of version 8; it shows the first half of the digest, but for the six bits so marked. */
  lemma RowIdShows(x: Suite, key: Bytes, r: RowIdentity)
    requires Lawful(x) && Identifiable(r)
    ensures var (id, digest) := (RowId(x, key, r), x.hmac(key, RowMessage(r)));
            IsUuid(id) && |digest| == 32 &&
            ByteIn(id, 6) / 16 == 8 && ByteIn(id, 8) / 64 == 2 &&
            ByteIn(id, 6) % 16 == digest[6] % 16 && ByteIn(id, 8) % 64 == digest[8] % 64 &&
            forall i {:trigger ByteIn(id, i)} :: 0 <= i < 16 && i != 6 && i != 8 ==> ByteIn(id, i) == digest[i]
  {
    var digest := x.hmac(key, RowMessage(r));
    var b := IdentifierBytes(digest);
    var h := Hex(b);
    assert |h| == 32;
    forall i: nat | i < 16 ensures ByteIn(Dashed(h), i) == b[i] {
      HexAt(b, i);
      DashedAt(h, i);
    }
    DashedIsUuid(h);
    hide Hex, HexValue, Dashed, RowMessage, DigitsOf, ByteIn, IsUuid;
  }

  lemma DashedIsUuid(h: string)
    requires |h| == 32 && forall i :: 0 <= i < 32 ==> IsHex(h[i])
    ensures IsUuid(Dashed(h))
  {
    hide IsHex;
  }

  lemma SameRowSameMessage(r: RowIdentity, s: RowIdentity)
    requires Identifiable(r) && Identifiable(s) && SameRow(r, s)
    ensures RowMessage(r) == RowMessage(s)
  {
    SameBytes(r.externalId, s.externalId);
    CanonicalTells(r.organizationId, s.organizationId);
    if r.deviceId.Some? {
      CanonicalTells(r.deviceId.value, s.deviceId.value);
    }
    assert RowParts(r) == RowParts(s);
  }

  /** `indexVersions` lists the configured blind-index versions in ascending order. */
  datatype Keyring = Keyring(
    encryptionKeys: map<nat, Bytes>, activeKeyVersion: nat,
    indexKeys: map<nat, Bytes>, activeIndexVersion: nat, indexVersions: seq<nat>)

  ghost predicate Configured(k: Keyring) {
    && k.activeKeyVersion in k.encryptionKeys && k.activeIndexVersion in k.indexKeys
    && (forall v {:trigger v in k.encryptionKeys} :: v in k.encryptionKeys ==> 0 < v < MAX_SAFE)
    && (forall v {:trigger v in k.indexKeys} :: v in k.indexKeys ==> 0 < v < MAX_SAFE)
    && (forall v {:trigger v in k.indexVersions} :: v in k.indexVersions <==> v in k.indexKeys)
  }

  function FieldPrefix(): (s: string)
    ensures IsAscii(s)
  {
    "callora:call-log-pii:field-key:v"
  }

  function LegacyPrefix(): (s: string)
    ensures IsAscii(s) && |s| == 40 && s[38] == '1'
  {
    "callora:call-log-pii:blind-index-key:v1:"
  }

  function IndexPrefix(): (s: string)
    ensures IsAscii(s) && |s| == 40 && s[38] == '2'
  {
    "callora:call-log-pii:blind-index-key:v2:"
  }

  function FieldKey(x: Suite, master: Bytes, f: Field, format: nat): Bytes {
    x.hmac(master, Ascii(FieldPrefix()) + Decimal(format) + Ascii(":") + Ascii(FieldName(f)))
  }

  function IndexDomain(version: nat, f: Field): Bytes {
    if version == LEGACY_INDEX_VERSION then Ascii(LegacyPrefix()) + Ascii(FieldName(f))
    else Ascii(IndexPrefix()) + Decimal(version) + Ascii(":") + Ascii(FieldName(f))
  }

  /** The message that a blind index hashes. */
  function IndexMessage(organizationId: string, f: Field, value: Bytes): Bytes
    requires IsUuid(organizationId)
  {
    LengthPrefixed(Ascii(Canonical(organizationId))) + (LengthPrefixed(Ascii(FieldName(f))) + value)
  }

  /** The message determines the organization, the field and the value. */
  lemma IndexMessageInjective(o: string, f: Field, a: Bytes, p: string, g: Field, b: Bytes)
    requires IsUuid(o) && IsUuid(p)
    ensures IndexMessage(o, f, a) == IndexMessage(p, g, b) <==> SameIdentifier(o, p) && f == g && a == b
  {
    CanonicalTells(o, p);
    hide LengthPrefixed, Canonical, FieldName, IsUuid, IsAscii, SameIdentifier;
    if IndexMessage(o, f, a) == IndexMessage(p, g, b) {
      var (of, pg) := (Ascii(Canonical(o)), Ascii(Canonical(p)));
      var (nf, ng) := (Ascii(FieldName(f)), Ascii(FieldName(g)));
      PrefixInjective(of, LengthPrefixed(nf) + a, pg, LengthPrefixed(ng) + b);
      PrefixInjective(nf, a, ng, b);
      AsciiInjective(Canonical(o), Canonical(p));
      FieldNamesDiffer(f, g);
    }
  }

  /** The message reads back: organization and field, each behind its length, and then the value. */
  lemma IndexMessageReadsBack(o: string, f: Field, value: Bytes)
    requires IsUuid(o)
    ensures var first := TakeFrame(IndexMessage(o, f, value));
            first.Some? && SpellsLower(first.value.0, o) &&
            var second := TakeFrame(first.value.1);
            second.Some? && SpellsField(second.value.0, f) && second.value.1 == value
  {
    LowerSpelled(o);
    FieldSpelled(f);
    hide LengthPrefixed, TakeFrame, Canonical, FieldName, SpellsLower, SpellsField, IsUuid;
    TakesFrame(Ascii(FieldName(f)), value);
    TakesFrame(Ascii(Canonical(o)), LengthPrefixed(Ascii(FieldName(f))) + value);
  }

  function IndexKey(x: Suite, k: Keyring, f: Field, version: nat): Bytes
    requires version in k.indexKeys
  {
    x.hmac(k.indexKeys[version], IndexDomain(version, f))
  }

  /** The keyed hash tells the two keys and messages apart. */
  ghost predicate HashApart(x: Suite, k: Bytes, m: Bytes, l: Bytes, n: Bytes) {
    x.hmac(k, m) == x.hmac(l, n) ==> k == l && m == n
  }

  function FieldDomain(f: Field, format: nat): Bytes {
    Ascii(FieldPrefix()) + Decimal(format) + Ascii(":") + Ascii(FieldName(f))
  }

  lemma FieldDomainsDiffer(f: Field, format: nat, g: Field, other: nat)
    requires (format == FORMAT || format == LEGACY_FORMAT) && (other == FORMAT || other == LEGACY_FORMAT)
    requires FieldDomain(f, format) == FieldDomain(g, other)
    ensures f == g && format == other
  {
    hide Ascii, FieldName, Decimal, FieldPrefix;
    NumbersApart(Ascii(FieldPrefix()), format, Ascii(FieldName(f)), other, Ascii(FieldName(g)));
    FieldNamesDiffer(f, g);
  }

  /** The key of a field tells the master key, the field and the format, as far as the keyed hash does. */
  lemma FieldKeyTells(x: Suite, k: Bytes, f: Field, format: nat, l: Bytes, g: Field, other: nat)
    requires (format == FORMAT || format == LEGACY_FORMAT) && (other == FORMAT || other == LEGACY_FORMAT)
    requires HashApart(x, k, FieldDomain(f, format), l, FieldDomain(g, other))
    ensures FieldKey(x, k, f, format) == FieldKey(x, l, g, other) <==> k == l && f == g && format == other
  {
    if FieldDomain(f, format) == FieldDomain(g, other) {
      FieldDomainsDiffer(f, format, g, other);
    }
    hide FieldDomain;
    assert FieldKey(x, k, f, format) == x.hmac(k, FieldDomain(f, format)) by { FieldKeyIs(x, k, f, format); }
    assert FieldKey(x, l, g, other) == x.hmac(l, FieldDomain(g, other)) by { FieldKeyIs(x, l, g, other); }
  }

  lemma FieldKeyIs(x: Suite, k: Bytes, f: Field, format: nat)
    ensures FieldKey(x, k, f, format) == x.hmac(k, FieldDomain(f, format))
  {
  }

  /** The domain of a blind index tells version and field. */
  lemma IndexDomainsDiffer(v: nat, f: Field, w: nat, g: Field)
    requires IndexDomain(v, f) == IndexDomain(w, g)
    ensures v == w && f == g
  {
    hide Ascii, FieldName, Decimal, LegacyPrefix, IndexPrefix;
    var a, b := Ascii(FieldName(f)), Ascii(FieldName(g));
    if v == LEGACY_INDEX_VERSION && w == LEGACY_INDEX_VERSION {
      SameEnd(Ascii(LegacyPrefix()), a, b);
      FieldNamesDiffer(f, g);
    } else if v != LEGACY_INDEX_VERSION && w != LEGACY_INDEX_VERSION {
      NumbersApart(Ascii(IndexPrefix()), v, a, w, b);
      FieldNamesDiffer(f, g);
    } else {
      LegacyApart(if v == LEGACY_INDEX_VERSION then a else b, if v == LEGACY_INDEX_VERSION then w else v,
                  if v == LEGACY_INDEX_VERSION then b else a);
    }
  }

  lemma SameEnd(start: Bytes, a: Bytes, b: Bytes)
    requires start + a == start + b
    ensures a == b
  {
    assert (start + a)[|start|..] == a && (start + b)[|start|..] == b;
  }

  /** The domains of the first version and of later ones part at the number in their names. */
  lemma LegacyApart(a: Bytes, w: nat, b: Bytes)
    ensures Ascii(LegacyPrefix()) + a != Ascii(IndexPrefix()) + Decimal(w) + Ascii(":") + b
  {
    hide LegacyPrefix, IndexPrefix, Decimal;
    PartAt(Ascii(LegacyPrefix()), a, Ascii(IndexPrefix()), Decimal(w), Ascii(":"), b, 38);
  }

  lemma PartAt(p: Bytes, a: Bytes, q: Bytes, c: Bytes, d: Bytes, e: Bytes, i: nat)
    requires i < |p| && i < |q| && p[i] != q[i]
    ensures p + a != q + c + d + e
  {
    assert (p + a)[i] == p[i] && (q + c + d + e)[i] == q[i];
  }

  /** A number ends where its digits do. */
  lemma NumbersApart(start: Bytes, v: nat, s: Bytes, w: nat, t: Bytes)
    requires start + Decimal(v) + Ascii(":") + s == start + Decimal(w) + Ascii(":") + t
    ensures v == w && s == t
  {
    DecimalDigits(v);
    DecimalDigits(w);
    var colon := Ascii(":");
    assert colon == [58];
    DigitsApart(start, Decimal(v), s, Decimal(w), t);
    DecimalInjective(v, w);
  }

  lemma DigitsApart(start: Bytes, x: Bytes, s: Bytes, y: Bytes, t: Bytes)
    requires start + x + [58] + s == start + y + [58] + t
    requires (forall i :: 0 <= i < |x| ==> x[i] < 58) && (forall i :: 0 <= i < |y| ==> y[i] < 58)
    ensures x == y && s == t
  {
    var a, b, at := start + x + [58] + s, start + y + [58] + t, |start|;
    assert a[at + |x|] == 58 && b[at + |y|] == 58;
    assert forall i :: 0 <= i < |x| ==> a[at + i] == x[i];
    assert forall i :: 0 <= i < |y| ==> b[at + i] == y[i];
    assert a[at..at + |x|] == x && b[at..at + |y|] == y;
    assert a[at + |x| + 1..] == s && b[at + |y| + 1..] == t;
  }

  lemma {:induction false} DecimalDigits(n: nat)
    ensures forall i :: 0 <= i < |Decimal(n)| ==> 48 <= Decimal(n)[i] < 58
  {
    if n < 10 {
    } else {
      DecimalDigits(n / 10);
    }
  }

  /** The key of a blind index tells the master key of the version, the version and the field. */
  lemma IndexKeyTells(x: Suite, k: Keyring, f: Field, v: nat, l: Keyring, g: Field, w: nat)
    requires v in k.indexKeys && w in l.indexKeys
    requires HashApart(x, k.indexKeys[v], IndexDomain(v, f), l.indexKeys[w], IndexDomain(w, g))
    ensures IndexKey(x, k, f, v) == IndexKey(x, l, g, w) <==> k.indexKeys[v] == l.indexKeys[w] && v == w && f == g
  {
    if IndexDomain(v, f) == IndexDomain(w, g) {
      IndexDomainsDiffer(v, f, w, g);
    }
    hide IndexDomain;
  }

  /** The blind index of a value under one key version, or nothing where the source throws. */
  function BlindIndex(x: Suite, k: Keyring, organizationId: string, f: Field, value: Text,
                      version: nat): Option<Bytes>
  {
    if !IsUuid(organizationId) || version == 0 || version >= MAX_SAFE || |Encode(value)| > MAX_PLAINTEXT ||
       version !in k.indexKeys
    then None
    else Some(x.hmac(IndexKey(x, k, f, version), IndexMessage(organizationId, f, Encode(value))))
  }

  function Encrypt(x: Suite, k: Keyring, ctx: Context, plaintext: Text, nonce: Bytes): Option<Envelope> {
    if k.activeKeyVersion !in k.encryptionKeys || |Encode(plaintext)| > MAX_PLAINTEXT then None
    else
      var key := FieldKey(x, k.encryptionKeys[k.activeKeyVersion], ctx.field, FORMAT);
      var index := BlindIndex(x, k, ctx.organizationId, ctx.field, plaintext, k.activeIndexVersion);
      if index.None? then None
      else
        var data := AuthenticatedData(ctx, FORMAT, k.activeKeyVersion, k.activeIndexVersion, index.value);
        if data.None? then None
        else Some(Envelope(FORMAT, k.activeKeyVersion, k.activeIndexVersion, nonce,
                           x.seal(key, nonce, data.value, Encode(plaintext)), index.value))
  }

  /** Decryption gives the plaintext, or nothing where the source reports its one generic error. */
  function Decrypt(x: Suite, k: Keyring, ctx: Context, e: Envelope): Option<Text> {
    if !Acceptable(e) || e.keyVersion !in k.encryptionKeys || e.indexVersion !in k.indexKeys then None
    else
      var key := FieldKey(x, k.encryptionKeys[e.keyVersion], ctx.field, e.formatVersion);
      var data := DataOf(ctx, e);
      if data.None? then None
      else
        var plain := x.unseal(key, e.nonce, data.value, e.ciphertext);
        if plain.None? || Decode(plain.value).None? then None
        else
          var text := Decode(plain.value).value;
          if BlindIndex(x, k, ctx.organizationId, ctx.field, text, e.indexVersion) == Some(e.blindIndex) then Some(text)
          else None
  }

  /** The later keyring still has the two keys of the earlier one's active versions. */
  ghost predicate Keeps(earlier: Keyring, later: Keyring) {
    && earlier.activeKeyVersion in later.encryptionKeys && earlier.activeKeyVersion in earlier.encryptionKeys
    && later.encryptionKeys[earlier.activeKeyVersion] == earlier.encryptionKeys[earlier.activeKeyVersion]
    && earlier.activeIndexVersion in later.indexKeys && earlier.activeIndexVersion in earlier.indexKeys
    && later.indexKeys[earlier.activeIndexVersion] == earlier.indexKeys[earlier.activeIndexVersion]
  }

  predicate StartsWithMark(t: Text) {
    t != [] && t[0] == BYTE_ORDER_MARK
  }

  /** Encryption succeeds exactly for a well-formed address and a plaintext that is not too long. */
  lemma EncryptsExactly(x: Suite, k: Keyring, ctx: Context, p: Text, nonce: Bytes)
    requires Lawful(x) && Configured(k)
    ensures Encrypt(x, k, ctx, p, nonce).Some? <==>
              IsUuid(ctx.organizationId) && IsUuid(ctx.rowId) && |Encode(p)| <= 65_536
  {
  }

  /**
   * Only a well-formed envelope under configured keys decrypts, and only at a well-formed address; the stored blind
   * index is then that of the text which comes out.
   */
  lemma DecryptedTells(x: Suite, k: Keyring, ctx: Context, e: Envelope)
    requires Decrypt(x, k, ctx, e).Some?
    ensures e.formatVersion == 1 || e.formatVersion == 2
    ensures e.formatVersion == 1 ==> e.indexVersion == 1
    ensures |e.nonce| == 12 && |e.ciphertext| >= 16 && |e.blindIndex| == 32
    ensures 0 < e.keyVersion < MAX_SAFE && e.keyVersion in k.encryptionKeys
    ensures 0 < e.indexVersion < MAX_SAFE && e.indexVersion in k.indexKeys
    ensures IsUuid(ctx.organizationId) && IsUuid(ctx.rowId)
    ensures e.blindIndex == x.hmac(IndexKey(x, k, ctx.field, e.indexVersion),
                                   IndexMessage(ctx.organizationId, ctx.field, Encode(Decrypt(x, k, ctx, e).value)))
  {
  }

  /** What decryption makes of an encrypted text before it compares the blind index. */
  lemma DecryptsTo(x: Suite, k: Keyring, later: Keyring, ctx: Context, p: Text, nonce: Bytes)
    requires Lawful(x) && Configured(k) && Keeps(k, later) && |nonce| == 12
    requires Encrypt(x, k, ctx, p, nonce).Some?
    ensures var e := Encrypt(x, k, ctx, p, nonce).value;
            var text := Decode(Encode(p));
            text.Some? &&
            Decrypt(x, later, ctx, e) ==
              if BlindIndex(x, later, ctx.organizationId, ctx.field, text.value, e.indexVersion) == Some(e.blindIndex)
              then text else None
  {
    DecodesText(p);
    var e := Encrypt(x, k, ctx, p, nonce).value;
    assert Acceptable(e);
    hide Frame, Parts, Encode, Decode, Decimal, Canonical, IndexMessage, IndexDomain, FieldName, IsUuid;
  }

  /**
   * Decrypting under any later keyring that keeps the keys used gives the plaintext back if and only if the
   * plaintext has no lone surrogate and does not begin with a byte order mark.
   */
  lemma {:induction false} DecryptsEncrypted(x: Suite, k: Keyring, later: Keyring, ctx: Context, p: Text, nonce: Bytes)
    requires Lawful(x) && Configured(k) && Keeps(k, later) && |nonce| == 12
    requires Encrypt(x, k, ctx, p, nonce).Some?
    ensures Decrypt(x, later, ctx, Encrypt(x, k, ctx, p, nonce).value) == Some(p) <==>
              WellFormed(p) && !StartsWithMark(p)
  {
    DecryptsTo(x, k, later, ctx, p, nonce);
    RoundTrip(p);
    hide Decrypt, Encode, Decode, IndexMessage, IndexDomain, AuthenticatedData;
  }

  /** A lone surrogate comes back as U+FFFD, without an error. */
  lemma {:induction false} SurrogatesReplaced(x: Suite, k: Keyring, later: Keyring, ctx: Context, p: Text, nonce: Bytes)
    requires Lawful(x) && Configured(k) && Keeps(k, later) && |nonce| == 12
    requires Encrypt(x, k, ctx, p, nonce).Some? && !StartsWithMark(p)
    ensures Decrypt(x, later, ctx, Encrypt(x, k, ctx, p, nonce).value) == Some(ToText(Scalars(p)))
  {
    DecryptsTo(x, k, later, ctx, p, nonce);
    DecodesText(p);
    MarkedText(p);
    ReplacedSameBytes(p);
    hide Decrypt, Encode, Decode, IndexMessage, IndexDomain, AuthenticatedData, Scalars, ToText;
  }

  /** What was sealed with the data `a` cannot be unsealed with other data `b`. */
  ghost predicate Binds(x: Suite, nonce: Bytes, sealed: Bytes, a: Bytes, b: Bytes) {
    a != b ==> forall key {:trigger x.unseal(key, nonce, b, sealed)} :: x.unseal(key, nonce, b, sealed).None?
  }

  /**
   * A ciphertext that is presented anywhere else than where it was sealed, in another organization, row or field or
   * with another version or blind index, never decrypts, provided that the cipher binds it to its data.
   */
  lemma MovedNeverDecrypts(x: Suite, k: Keyring, c: Context, e: Envelope, d: Context, f: Envelope)
    requires Acceptable(e) && Addressable(c) && DataOf(c, e).Some?
    requires f.nonce == e.nonce && f.ciphertext == e.ciphertext
    requires DataOf(d, f).Some? ==> Binds(x, e.nonce, e.ciphertext, DataOf(c, e).value, DataOf(d, f).value)
    requires Addressable(d) ==> !SamePlace(c, e, d, f)
    ensures Decrypt(x, k, d, f).None?
  {
    hide Frame, Parts, Canonical, IsUuid, FieldKey, BlindIndex, Decode;
    if Acceptable(f) && Addressable(d) && DataOf(c, e) == DataOf(d, f) {
      AuthenticatedDataInjective(c, e, d, f);
    }
  }

  /** What was sealed under one key cannot be unsealed under another, with the same data. */
  ghost predicate NeedsKey(x: Suite, nonce: Bytes, sealed: Bytes, data: Bytes, key: Bytes, other: Bytes) {
    key != other ==> x.unseal(other, nonce, data, sealed).None?
  }

  /**
   * Under a keyring with another master key for its version an envelope never decrypts, provided that the hash tells
   * the two keys apart and the cipher needs the key.
   */
  lemma OtherKeyNeverDecrypts(x: Suite, k: Keyring, later: Keyring, ctx: Context, p: Text, nonce: Bytes)
    requires Lawful(x) && Configured(k) && Encrypt(x, k, ctx, p, nonce).Some?
    requires k.activeKeyVersion in later.encryptionKeys
    requires later.encryptionKeys[k.activeKeyVersion] != k.encryptionKeys[k.activeKeyVersion]
    requires var (mine, theirs) := (k.encryptionKeys[k.activeKeyVersion], later.encryptionKeys[k.activeKeyVersion]);
             var e := Encrypt(x, k, ctx, p, nonce).value;
             HashApart(x, mine, FieldDomain(ctx.field, FORMAT), theirs, FieldDomain(ctx.field, FORMAT)) &&
             (DataOf(ctx, e).Some? ==>
               NeedsKey(x, nonce, e.ciphertext, DataOf(ctx, e).value, FieldKey(x, mine, ctx.field, FORMAT),
                        FieldKey(x, theirs, ctx.field, FORMAT)))
    ensures Decrypt(x, later, ctx, Encrypt(x, k, ctx, p, nonce).value).None?
  {
    FieldKeyTells(x, k.encryptionKeys[k.activeKeyVersion], ctx.field, FORMAT,
                  later.encryptionKeys[k.activeKeyVersion], ctx.field, FORMAT);
    hide FieldKey, FieldDomain, AuthenticatedData, BlindIndex, Encode, Decode, Lawful;
  }

  /** The keyed hash does not collide on the index messages of these two texts. */
  ghost predicate TellsApart(x: Suite, k: Keyring, ctx: Context, p: Text, q: Text) {
    IsUuid(ctx.organizationId) && k.activeIndexVersion in k.indexKeys &&
    var key := IndexKey(x, k, ctx.field, k.activeIndexVersion);
    var (a, b) := (IndexMessage(ctx.organizationId, ctx.field, Encode(p)),
                   IndexMessage(ctx.organizationId, ctx.field, Encode(q)));
    x.hmac(key, a) == x.hmac(key, b) ==> a == b
  }

  /**
   * A plaintext with a leading byte order mark is encrypted, and then never decrypted: the blind index of the
   * text without the mark is another one, unless the keyed hash collides on the two messages.
   */
  lemma {:induction false} MarkNeverDecrypts(x: Suite, k: Keyring, later: Keyring, ctx: Context, p: Text, nonce: Bytes)
    requires Lawful(x) && Configured(k) && Keeps(k, later) && |nonce| == 12
    requires Encrypt(x, k, ctx, p, nonce).Some? && StartsWithMark(p)
    requires TellsApart(x, k, ctx, p, ToText(Scalars(p)[1..]))
    ensures Decrypt(x, later, ctx, Encrypt(x, k, ctx, p, nonce).value).None?
  {
    DecryptsTo(x, k, later, ctx, p, nonce);
    DecodesText(p);
    MarkedText(p);
    var tail := ToText(Scalars(p)[1..]);
    ScalarsOfText(Scalars(p)[1..]);
    SameBytes(tail, p);
    IndexMessageInjective(ctx.organizationId, ctx.field, Encode(tail), ctx.organizationId, ctx.field, Encode(p));
    hide Decrypt, Encode, Decode, IndexMessage, IndexDomain, AuthenticatedData, Scalars, ToText;
  }

  // ---------------------------------------------------------------- duplicate look-up

  /** One value to look for: a key version and the blind index under it, in the main or the alternate phone. */
  datatype Candidate = Candidate(field: Field, version: nat, index: Bytes)

  function Reversed(s: seq<nat>): (r: seq<nat>)
    ensures forall v :: v in r <==> v in s
  {
    if s == [] then [] else Reversed(s[1..]) + [s[0]]
  }

  /** One candidate for every configured version, the newest first. */
  function IndexCandidates(x: Suite, k: Keyring, o: string, f: Field, value: Text,
                           versions: seq<nat>): (cs: seq<Candidate>)
    ensures forall c {:trigger c in cs} :: c in cs <==>
      c.field == f && c.version in versions && BlindIndex(x, k, o, f, value, c.version) == Some(c.index)
  {
    if versions == [] then []
    else
      var index := BlindIndex(x, k, o, f, value, versions[0]);
      (if index.Some? then [Candidate(f, versions[0], index.value)] else []) +
      IndexCandidates(x, k, o, f, value, versions[1..])
  }

  function Distinct(phones: seq<Text>): (r: seq<Text>)
    ensures forall p :: p in r <==> p in phones
  {
    if phones == [] then []
    else
      var rest := Distinct(phones[..|phones| - 1]);
      if phones[|phones| - 1] in rest then rest else rest + [phones[|phones| - 1]]
  }

  /** The candidates for the searched phones, in both phone fields. */
  function CandidatesFor(x: Suite, k: Keyring, o: string, phones: seq<Text>): seq<Candidate> {
    if phones == [] then []
    else
      IndexCandidates(x, k, o, PhoneNumber, phones[0], Reversed(k.indexVersions)) +
      IndexCandidates(x, k, o, AlternatePhoneNumber, phones[0], Reversed(k.indexVersions)) +
      CandidatesFor(x, k, o, phones[1..])
  }

  /** Some searched phone has this index under this version. */
  ghost predicate Offered(x: Suite, k: Keyring, o: string, phones: seq<Text>, c: Candidate) {
    c.field != ContactName && c.version in k.indexVersions &&
    exists p {:trigger p in phones} :: p in phones && BlindIndex(x, k, o, c.field, p, c.version) == Some(c.index)
  }

  lemma {:induction false} CandidatesOffered(x: Suite, k: Keyring, o: string, phones: seq<Text>, c: Candidate)
    ensures c in CandidatesFor(x, k, o, phones) <==> Offered(x, k, o, phones, c)
  {
    hide BlindIndex;
    if phones == [] {
    } else {
      var rest := phones[1..];
      CandidatesOffered(x, k, o, rest, c);
      assert phones[0] in phones;
      assert forall p: Text {:trigger p in phones} {:trigger p in rest} :: p in phones <==> p == phones[0] || p in rest;
    }
  }

  function LeadPhoneLookupCandidates(x: Suite, k: Keyring, o: string, phones: seq<Text>): seq<Candidate> {
    CandidatesFor(x, k, o, Distinct(phones))
  }

  /** A lead's phones as stored: each by the version it was indexed under and its blind index. */
  datatype StoredPhones = StoredPhones(version: nat, index: Bytes, alternate: Option<(nat, Bytes)>)

  /** The predicate of the duplicate query. */
  predicate Hits(stored: StoredPhones, cs: seq<Candidate>) {
    Candidate(PhoneNumber, stored.version, stored.index) in cs ||
    (stored.alternate.Some? &&
     Candidate(AlternatePhoneNumber, stored.alternate.value.0, stored.alternate.value.1) in cs)
  }

  /** The stored phones were indexed under versions that are still configured, whichever they are. */
  predicate IndexedUnder(x: Suite, k: Keyring, o: string, phone: Text, alternate: Option<Text>, stored: StoredPhones) {
    && BlindIndex(x, k, o, PhoneNumber, phone, stored.version) == Some(stored.index)
    && (alternate.Some? <==> stored.alternate.Some?)
    && (alternate.Some? && stored.alternate.Some? ==>
          BlindIndex(x, k, o, AlternatePhoneNumber, alternate.value,
                     stored.alternate.value.0) == Some(stored.alternate.value.1))
  }

  /** The keyed hash does not collide on the index messages of these texts. */
  ghost predicate NoCollision(x: Suite, k: Keyring, o: string, texts: set<Text>)
    requires IsUuid(o)
  {
    forall f: Field, v, p, q {:trigger IndexKey(x, k, f, v), p in texts, q in texts} ::
      v in k.indexKeys && p in texts && q in texts &&
      x.hmac(IndexKey(x, k, f, v), IndexMessage(o, f, Encode(p))) ==
        x.hmac(IndexKey(x, k, f, v), IndexMessage(o, f, Encode(q))) ==>
        IndexMessage(o, f, Encode(p)) == IndexMessage(o, f, Encode(q))
  }

  /** Within one field and version, indexes are equal exactly for equal texts. */
  lemma IndexTellsTexts(x: Suite, k: Keyring, o: string, f: Field, v: nat, p: Text, q: Text, texts: set<Text>)
    requires IsUuid(o) && NoCollision(x, k, o, texts) && p in texts && q in texts && WellFormed(p) && WellFormed(q)
    requires BlindIndex(x, k, o, f, p, v).Some? && BlindIndex(x, k, o, f, q, v).Some?
    ensures BlindIndex(x, k, o, f, p, v) == BlindIndex(x, k, o, f, q, v) <==> p == q
  {
    IndexMessageInjective(o, f, Encode(p), o, f, Encode(q));
    SameBytes(p, q);
    var key := IndexKey(x, k, f, v);
  }

  /**
   * The encrypted duplicate look-up agrees with the plaintext one: whatever mix of configured versions a
   * lead was indexed under, the candidates hit it exactly when one of its phones is searched for.
   */
  lemma LookupAgrees(x: Suite, k: Keyring, o: string, phones: seq<Text>, phone: Text, alternate: Option<Text>,
                     stored: StoredPhones)
    requires IsUuid(o) && Configured(k) && IndexedUnder(x, k, o, phone, alternate, stored)
    requires WellFormed(phone) && (alternate.Some? ==> WellFormed(alternate.value))
    requires forall p :: p in phones ==> WellFormed(p) && |Encode(p)| <= MAX_PLAINTEXT
    requires NoCollision(x, k, o, (set p | p in phones) + {phone} + if alternate.Some? then {alternate.value} else {})
    ensures Hits(stored, LeadPhoneLookupCandidates(x, k, o, phones)) <==>
              phone in phones || (alternate.Some? && alternate.value in phones)
  {
    var texts := (set p | p in phones) + {phone} + if alternate.Some? then {alternate.value} else {};
    FieldFound(x, k, o, PhoneNumber, phones, phone, stored.version, stored.index, texts);
    if alternate.Some? {
      FieldFound(x, k, o, AlternatePhoneNumber, phones, alternate.value, stored.alternate.value.0,
                 stored.alternate.value.1, texts);
    }
  }

  lemma FieldFound(x: Suite, k: Keyring, o: string, f: Field, phones: seq<Text>, phone: Text, version: nat,
                   index: Bytes, texts: set<Text>)
    requires IsUuid(o) && Configured(k) && f != ContactName && NoCollision(x, k, o, texts) && WellFormed(phone)
    requires BlindIndex(x, k, o, f, phone, version) == Some(index) && phone in texts
    requires forall p :: p in phones ==> p in texts && WellFormed(p) && |Encode(p)| <= MAX_PLAINTEXT
    ensures Candidate(f, version, index) in LeadPhoneLookupCandidates(x, k, o, phones) <==> phone in phones
  {
    var all := Distinct(phones);
    var c := Candidate(f, version, index);
    CandidatesOffered(x, k, o, all, c);
    if c in CandidatesFor(x, k, o, all) {
      var p :| p in all && BlindIndex(x, k, o, c.field, p, c.version) == Some(c.index);
      IndexTellsTexts(x, k, o, f, version, p, phone, texts);
    }
    if phone in all {
      assert version in k.indexVersions;
    }
    hide BlindIndex, NoCollision, Configured;
  }
}
