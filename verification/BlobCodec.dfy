/** The encrypted blob format: printer and parser (crates/zann-crypto/src/crypto.rs:9-46, 78-123, 172-202). */
module BlobCodec {
  import opened Base

  const MAGIC: Bytes := [90, 65, 78]
  const VERSION: byte := 1
  const MAX_SECTION := 1024
  const HEADER_LEN := 18
  const U32 := 0x1_0000_0000

  type u32 = x: int | 0 <= x < U32

  datatype Blob = Blob(kekId: u32, algoDek: byte, algoKek: byte, encDek: Bytes, nonce: Bytes, ciphertext: Bytes)

  datatype CryptoError =
    | InvalidBlob
    | UnsupportedVersion(version: byte)
    | UnsupportedAlgorithm(algorithm: byte)
    | EncryptionFailed
    | DecryptionFailed

  /** `to_le_bytes`. */
  function Le4(n: u32): (r: Bytes)
    ensures |r| == 4
  {
    [(n % 256) as byte, (n / 0x100 % 256) as byte, (n / 0x1_0000 % 256) as byte, (n / 0x100_0000) as byte]
  }

  /** `from_le_bytes`. */
  function FromLe4(a: byte, b: byte, c: byte, d: byte): u32 {
    a as int + b as int * 0x100 + c as int * 0x1_0000 + d as int * 0x100_0000
  }

  lemma Le4RoundTrip(n: u32)
    ensures FromLe4(Le4(n)[0], Le4(n)[1], Le4(n)[2], Le4(n)[3]) == n
  {
    var x, y := n / 0x100, n / 0x1_0000;
    assert y == x / 0x100 && n / 0x100_0000 == y / 0x100;
    assert n == n % 256 + 0x100 * x && x == x % 256 + 0x100 * y && y == y % 256 + 0x100 * (y / 0x100);
  }

  lemma FromLe4RoundTrip(a: byte, b: byte, c: byte, d: byte)
    ensures Le4(FromLe4(a, b, c, d)) == [a, b, c, d]
  {
    var x, y, z, w := a as int, b as int, c as int, d as int;
    var n := FromLe4(a, b, c, d);
    Split(n, y + z * 0x100 + w * 0x1_0000, x, 0x100);
    Split(n, z + w * 0x100, x + y * 0x100, 0x1_0000);
    Split(n, w, x + y * 0x100 + z * 0x1_0000, 0x100_0000);
    Split(n / 0x100, z + w * 0x100, y, 0x100);
    Split(n / 0x1_0000, w, z, 0x100);
  }

  /** A quotient and remainder are what they are written as. */
  lemma Split(n: int, q: int, r: int, m: int)
    requires m == 0x100 || m == 0x1_0000 || m == 0x100_0000
    requires n == q * m + r && 0 <= r < m
    ensures n / m == q && n % m == r
  {
  }

  /** A section length that does not fit into 32 bits is written as the largest number. */
  function LengthField(n: nat): u32 {
    if n < U32 then n else U32 - 1
  }

  function Header(b: Blob): (r: Bytes)
    ensures |r| == HEADER_LEN
  {
    MAGIC + [VERSION] + Le4(b.kekId) + [b.algoDek, b.algoKek]
    + Le4(LengthField(|b.encDek|)) + Le4(LengthField(|b.nonce|))
  }

  function Serialised(b: Blob): Bytes {
    Header(b) + b.encDek + b.nonce + b.ciphertext
  }

  /** `to_bytes`: a buffer that grows piece by piece. */
  method ToBytes(b: Blob) returns (out: Bytes)
    ensures out == Serialised(b)
  {
    var encDekLen, nonceLen := LengthField(|b.encDek|), LengthField(|b.nonce|);
    out := MAGIC;
    out := out + [VERSION];
    out := out + Le4(b.kekId);
    out := out + [b.algoDek];
    out := out + [b.algoKek];
    out := out + Le4(encDekLen);
    out := out + Le4(nonceLen);
    assert out == Header(b);
    out := out + b.encDek;
    out := out + b.nonce;
    out := out + b.ciphertext;
  }

  function LengthAt(bytes: Bytes, at: nat): u32
    requires at + 4 <= |bytes|
  {
    FromLe4(bytes[at], bytes[at + 1], bytes[at + 2], bytes[at + 3])
  }

  /** What `from_bytes` answers. */
  function Parsed(bytes: Bytes): Result<Blob, CryptoError> {
    if |bytes| < 4 || bytes[..3] != MAGIC then Err(InvalidBlob)
    else if bytes[3] != VERSION then Err(UnsupportedVersion(bytes[3]))
    else if |bytes| < HEADER_LEN then Err(InvalidBlob)
    else
      var d, n := LengthAt(bytes, 10), LengthAt(bytes, 14);
      if d > MAX_SECTION || n > MAX_SECTION || |bytes| < HEADER_LEN + d + n then Err(InvalidBlob)
      else Ok(Blob(LengthAt(bytes, 4), bytes[8], bytes[9], bytes[18..18 + d], bytes[18 + d..18 + d + n],
                   bytes[18 + d + n..]))
  }

  /** `from_bytes` and `parse_v1_envelope`: an offset that advances, never out of range on any input. */
  method FromBytes(bytes: Bytes) returns (r: Result<Blob, CryptoError>)
    ensures r == Parsed(bytes)
  {
    hide FromLe4;
    if |bytes| < 3 + 1 {
      return Err(InvalidBlob);
    }
    if bytes[..3] != MAGIC {
      return Err(InvalidBlob);
    }
    var version := bytes[3];
    if version != VERSION {
      return Err(UnsupportedVersion(version));
    }
    if |bytes| < 3 + 1 + 4 + 1 + 1 + 4 + 4 {
      return Err(InvalidBlob);
    }
    var kekId := FromLe4(bytes[4], bytes[5], bytes[6], bytes[7]);
    var encDekLen := FromLe4(bytes[10], bytes[11], bytes[12], bytes[13]);
    var nonceLen := FromLe4(bytes[14], bytes[15], bytes[16], bytes[17]);
    if encDekLen > MAX_SECTION || nonceLen > MAX_SECTION {
      return Err(InvalidBlob);
    }
    var offset := 18;
    if |bytes| < offset + encDekLen + nonceLen {
      return Err(InvalidBlob);
    }
    var encDek := bytes[offset..offset + encDekLen];
    offset := offset + encDekLen;
    var nonce := bytes[offset..offset + nonceLen];
    offset := offset + nonceLen;
    r := Ok(Blob(kekId, bytes[8], bytes[9], encDek, nonce, bytes[offset..]));
  }

  /** Both length-prefixed sections are within the parser's limit. */
  predicate SectionsFit(b: Blob) {
    |b.encDek| <= MAX_SECTION && |b.nonce| <= MAX_SECTION
  }

  lemma HeaderFields(b: Blob)
    ensures var h := Header(b);
            && h[..3] == MAGIC && h[3] == VERSION && LengthAt(h, 4) == b.kekId
            && h[8] == b.algoDek && h[9] == b.algoKek
            && LengthAt(h, 10) == LengthField(|b.encDek|) && LengthAt(h, 14) == LengthField(|b.nonce|)
  {
    Le4RoundTrip(b.kekId);
    Le4RoundTrip(LengthField(|b.encDek|));
    Le4RoundTrip(LengthField(|b.nonce|));
  }

  lemma SerialisedFields(b: Blob)
    ensures var s := Serialised(b);
            && |s| == HEADER_LEN + |b.encDek| + |b.nonce| + |b.ciphertext|
            && s[..3] == MAGIC && s[3] == VERSION && LengthAt(s, 4) == b.kekId
            && s[8] == b.algoDek && s[9] == b.algoKek
            && LengthAt(s, 10) == LengthField(|b.encDek|) && LengthAt(s, 14) == LengthField(|b.nonce|)
  {
    HeaderFields(b);
    var s, h := Serialised(b), Header(b);
    assert forall i :: 0 <= i < HEADER_LEN ==> s[i] == h[i];
    assert s[..3] == h[..3];
  }

  /** Printing and parsing give the blob back exactly when both sections fit; otherwise the blob is refused. */
  lemma RoundTrip(b: Blob)
    ensures Parsed(Serialised(b)) == Ok(b) <==> SectionsFit(b)
    ensures !SectionsFit(b) ==> Parsed(Serialised(b)) == Err(InvalidBlob)
  {
    SerialisedFields(b);
    hide Le4, FromLe4;
    if SectionsFit(b) {
      var s := Serialised(b);
      var d, n := |b.encDek|, |b.nonce|;
      assert s[18..18 + d] == b.encDek && s[18 + d..18 + d + n] == b.nonce && s[18 + d + n..] == b.ciphertext;
    }
  }

  lemma FieldAt(bytes: Bytes, at: nat)
    requires at + 4 <= |bytes|
    ensures Le4(LengthAt(bytes, at)) == bytes[at..at + 4]
  {
    FromLe4RoundTrip(bytes[at], bytes[at + 1], bytes[at + 2], bytes[at + 3]);
  }

  /** What an accepted byte string has where. */
  lemma AcceptedFields(bytes: Bytes)
    requires Parsed(bytes).Ok?
    ensures |bytes| >= HEADER_LEN
    ensures var b, d, n := Parsed(bytes).value, LengthAt(bytes, 10), LengthAt(bytes, 14);
            && bytes[..3] == MAGIC && bytes[3] == VERSION && b.kekId == LengthAt(bytes, 4)
            && b.algoDek == bytes[8] && b.algoKek == bytes[9]
            && d <= MAX_SECTION && n <= MAX_SECTION && |bytes| >= HEADER_LEN + d + n
            && b.encDek == bytes[18..18 + d] && b.nonce == bytes[18 + d..18 + d + n]
            && b.ciphertext == bytes[18 + d + n..]
  {
    hide FromLe4;
  }

  /** Eighteen bytes, cut into the fields of the header. */
  lemma HeaderPieces(bytes: Bytes)
    requires |bytes| >= HEADER_LEN
    ensures bytes[..18] == bytes[..3] + [bytes[3]] + bytes[4..8] + [bytes[8], bytes[9]] + bytes[10..14] + bytes[14..18]
  {
  }

  /** The fixed part of an accepted byte string is the header of what it parses to. */
  lemma AcceptedHeader(bytes: Bytes)
    requires Parsed(bytes).Ok?
    ensures |bytes| >= HEADER_LEN && bytes[..HEADER_LEN] == Header(Parsed(bytes).value)
  {
    hide FromLe4, Le4, Parsed, LengthAt;
    AcceptedFields(bytes);
    HeaderPieces(bytes);
    FieldAt(bytes, 4);
    FieldAt(bytes, 10);
    FieldAt(bytes, 14);
  }

  /** The rest of it is the three sections. */
  lemma AcceptedSections(bytes: Bytes)
    requires Parsed(bytes).Ok?
    ensures |bytes| >= HEADER_LEN
    ensures var b := Parsed(bytes).value; bytes[HEADER_LEN..] == b.encDek + b.nonce + b.ciphertext && SectionsFit(b)
  {
    hide FromLe4, Parsed, LengthAt;
    AcceptedFields(bytes);
  }

  /** Every accepted byte string is the printed form of what it parses to. */
  lemma AcceptedIsPrinted(bytes: Bytes)
    requires Parsed(bytes).Ok?
    ensures Serialised(Parsed(bytes).value) == bytes && SectionsFit(Parsed(bytes).value)
  {
    hide Parsed, Header, SectionsFit;
    AcceptedHeader(bytes);
    AcceptedSections(bytes);
    assert bytes == bytes[..HEADER_LEN] + bytes[HEADER_LEN..];
  }

  /** The codec is a bijection between the blobs that fit and the byte strings that are accepted. */
  lemma CodecIsBijective(bytes: Bytes, b: Blob)
    ensures Parsed(bytes) == Ok(b) <==> bytes == Serialised(b) && SectionsFit(b)
  {
    RoundTrip(b);
    if Parsed(bytes).Ok? {
      AcceptedIsPrinted(bytes);
    }
  }

  // ----- the format, byte by byte

  /** Four bytes, the lowest first. */
  predicate IsLe4(bytes: Bytes, at: nat, n: int)
    requires at + 4 <= |bytes|
  {
    bytes[at] as int + 256 * (bytes[at + 1] as int + 256 * (bytes[at + 2] as int + 256 * bytes[at + 3] as int)) == n
  }

  lemma LengthIsLe4(bytes: Bytes, at: nat)
    requires at + 4 <= |bytes|
    ensures IsLe4(bytes, at, LengthAt(bytes, at))
  {
  }

  /** Where a printed blob has what: the letters ZAN, version 1, and lengths that stop at 2^32 - 1. */
  lemma PrintedLayout(b: Blob)
    ensures var s, d, n := Serialised(b), |b.encDek|, |b.nonce|;
            && |s| == 18 + d + n + |b.ciphertext|
            && s[0] as int == 'Z' as int && s[1] as int == 'A' as int && s[2] as int == 'N' as int && s[3] == 1
            && IsLe4(s, 4, b.kekId) && s[8] == b.algoDek && s[9] == b.algoKek
            && IsLe4(s, 10, if d <= 0xFFFF_FFFF then d else 0xFFFF_FFFF)
            && IsLe4(s, 14, if n <= 0xFFFF_FFFF then n else 0xFFFF_FFFF)
            && s[18..18 + d] == b.encDek && s[18 + d..18 + d + n] == b.nonce && s[18 + d + n..] == b.ciphertext
  {
    SerialisedFields(b);
    var s := Serialised(b);
    LengthIsLe4(s, 4);
    LengthIsLe4(s, 10);
    LengthIsLe4(s, 14);
    hide LengthAt, IsLe4, Le4;
    assert s[0] == s[..3][0] && s[1] == s[..3][1] && s[2] == s[..3][2];
  }

  /** The letters ZAN, and at least one more byte. */
  predicate HasMagic(bytes: Bytes) {
    |bytes| >= 4 && bytes[0] as int == 'Z' as int && bytes[1] as int == 'A' as int && bytes[2] as int == 'N' as int
  }

  /** The two lengths of the header are at most 1024 and the bytes reach that far. */
  ghost predicate HasSections(bytes: Bytes) {
    |bytes| >= 18 && exists d, n :: 0 <= d <= 1024 && 0 <= n <= 1024 && IsLe4(bytes, 10, d) && IsLe4(bytes, 14, n)
                                    && |bytes| >= 18 + d + n
  }

  /** Exactly which byte strings are refused, and as what. */
  lemma RefusedIff(bytes: Bytes)
    ensures Parsed(bytes).Ok? <==> HasMagic(bytes) && bytes[3] == 1 && HasSections(bytes)
    ensures forall v :: Parsed(bytes) == Err(UnsupportedVersion(v)) <==> HasMagic(bytes) && bytes[3] == v && v != 1
    ensures Parsed(bytes).Err? ==> Parsed(bytes).error.InvalidBlob? || Parsed(bytes).error.UnsupportedVersion?
  {
    assert |bytes| >= 4 ==> (bytes[..3] == MAGIC <==> bytes[0] == 90 && bytes[1] == 65 && bytes[2] == 78);
    if |bytes| >= 18 {
      LengthIsLe4(bytes, 10);
      LengthIsLe4(bytes, 14);
    }
    hide FromLe4;
  }
}
