/**
  The two-layer envelope over an abstract AEAD, and the associated data that ties a blob to its
  purpose (crates/zann-crypto/src/crypto.rs:130-280, crates/zann-crypto/src/vault_crypto.rs:44-162).
  Keys and nonces that the source draws at random are inputs.
 */
module Envelope {
  import opened Base
  import opened BlobCodec

  const ALGORITHM: byte := 1
  const NONCE_LEN := 24
  const KEY_LEN := 32
  const TAG_LEN := 16

  type Key = k: Bytes | |k| == KEY_LEN witness seq(KEY_LEN, _ => 0)
  type Nonce = n: Bytes | |n| == NONCE_LEN witness seq(NONCE_LEN, _ => 0)

  /** The interface of section 2.8 of RFC 8439: key, nonce, associated data, text. */
  datatype Aead = Aead(
    seal: (Key, Nonce, Bytes, Bytes) -> Option<Bytes>,
    open: (Key, Nonce, Bytes, Bytes) -> Option<Bytes>)

  /** What was sealed opens to itself, and the sealed text is longer by the tag. */
  ghost predicate Correct(a: Aead) {
    forall k: Key, n: Nonce, d: Bytes, m: Bytes :: a.seal(k, n, d, m).Some? ==>
      && a.open(k, n, d, a.seal(k, n, d, m).value) == Some(m)
      && |a.seal(k, n, d, m).value| == |m| + TAG_LEN
  }

  /** Such an interface exists with every text sealed, so the results below are about something. */
  lemma CorrectIsMet()
    ensures exists a: Aead :: Correct(a) && forall k: Key, n: Nonce, d: Bytes, m: Bytes :: a.seal(k, n, d, m).Some?
  {
    var tag: Bytes := seq(TAG_LEN, _ => 0);
    var a := Aead((k: Key, n: Nonce, d: Bytes, m: Bytes) => Some(m + tag),
                  (k: Key, n: Nonce, d: Bytes, c: Bytes) => if |c| < TAG_LEN then None else Some(c[..|c| - TAG_LEN]));
    forall k: Key, n: Nonce, d: Bytes, m: Bytes
      ensures a.open(k, n, d, a.seal(k, n, d, m).value) == Some(m)
    {
      assert (m + tag)[..|m|] == m;
    }
    assert Correct(a);
  }

  /**
    The text sealed under `d` opens under other associated data `d2`. No AEAD with tags of fixed
    length excludes this for all data at once, so the results below say when it would have to happen.
   */
  predicate Forged(a: Aead, k: Key, n: Nonce, d: Bytes, m: Bytes, d2: Bytes) {
    d2 != d && a.seal(k, n, d, m).Some? && a.open(k, n, d2, a.seal(k, n, d, m).value).Some?
  }

  /** The random draws of one encryption. */
  datatype Coins = Coins(dek: Key, dekNonce: Nonce, nonce: Nonce)

  /** `wrap_dek`. */
  function WrapDek(a: Aead, kek: Key, dek: Key, nonce: Nonce): Option<Bytes> {
    match a.seal(kek, nonce, [], dek)
    case Some(c) => Some(nonce + c)
    case None => None
  }

  /** `unwrap_dek`. */
  function UnwrapDek(a: Aead, kek: Key, encDek: Bytes): Result<Key, CryptoError> {
    if |encDek| < NONCE_LEN then Err(InvalidBlob)
    else match a.open(kek, encDek[..NONCE_LEN], [], encDek[NONCE_LEN..])
      case None => Err(DecryptionFailed)
      case Some(dek) => if |dek| != KEY_LEN then Err(InvalidBlob) else Ok(dek)
  }

  /** `v1_header_bytes` followed by the caller's data. */
  function PayloadAad(kekId: u32, algoDek: byte, algoKek: byte, aad: Bytes): Bytes {
    Le4(kekId) + [algoDek, algoKek] + aad
  }

  /** `encrypt_blob`. */
  function EncryptBlob(a: Aead, key: Key, plaintext: Bytes, aad: Bytes, coins: Coins): Result<Blob, CryptoError> {
    match WrapDek(a, key, coins.dek, coins.dekNonce)
    case None => Err(EncryptionFailed)
    case Some(encDek) =>
      match a.seal(coins.dek, coins.nonce, PayloadAad(0, ALGORITHM, ALGORITHM, aad), plaintext)
      case None => Err(EncryptionFailed)
      case Some(c) => Ok(Blob(0, ALGORITHM, ALGORITHM, encDek, coins.nonce, c))
  }

  /** `decrypt_blob`. */
  function DecryptBlob(a: Aead, key: Key, b: Blob, aad: Bytes): Result<Bytes, CryptoError> {
    if b.algoKek != ALGORITHM || b.algoDek != ALGORITHM then Err(UnsupportedAlgorithm(b.algoDek))
    else match UnwrapDek(a, key, b.encDek)
      case Err(e) => Err(e)
      case Ok(dek) =>
        if |b.nonce| != NONCE_LEN then Err(InvalidBlob)
        else match a.open(dek, b.nonce, PayloadAad(b.kekId, b.algoDek, b.algoKek, aad), b.ciphertext)
          case None => Err(DecryptionFailed)
          case Some(m) => Ok(m)
  }

  lemma UnwrapsBack(a: Aead, kek: Key, dek: Key, nonce: Nonce)
    requires Correct(a) && WrapDek(a, kek, dek, nonce).Some?
    ensures var w := WrapDek(a, kek, dek, nonce).value;
            UnwrapDek(a, kek, w) == Ok(dek) && |w| == NONCE_LEN + KEY_LEN + TAG_LEN
  {
    var c := a.seal(kek, nonce, [], dek).value;
    assert (nonce + c)[..NONCE_LEN] == nonce && (nonce + c)[NONCE_LEN..] == c;
  }

  /** Opening under any associated data is opening the payload under that data with the very same key. */
  lemma OpensLikePayload(a: Aead, key: Key, plaintext: Bytes, aad: Bytes, coins: Coins, other: Bytes)
    requires Correct(a) && EncryptBlob(a, key, plaintext, aad, coins).Ok?
    ensures var b := EncryptBlob(a, key, plaintext, aad, coins).value;
            && SectionsFit(b)
            && DecryptBlob(a, key, b, other)
               == match a.open(coins.dek, coins.nonce, PayloadAad(0, ALGORITHM, ALGORITHM, other), b.ciphertext)
                  case None => Err(DecryptionFailed)
                  case Some(m) => Ok(m)
  {
    UnwrapsBack(a, key, coins.dek, coins.dekNonce);
  }

  /**
    The envelope end to end, for every key, every draw, every plaintext and every associated data:
    encrypt, print, parse, decrypt returns the plaintext. Decrypting under any other data fails,
    unless the cipher itself opens this one sealed text under other data.
   */
  lemma EnvelopeEndToEnd(a: Aead, key: Key, plaintext: Bytes, aad: Bytes, coins: Coins, other: Bytes)
    requires Correct(a) && EncryptBlob(a, key, plaintext, aad, coins).Ok?
    ensures var b := EncryptBlob(a, key, plaintext, aad, coins).value;
            && Parsed(Serialised(b)) == Ok(b)
            && DecryptBlob(a, key, b, aad) == Ok(plaintext)
            && (other != aad ==>
                  (DecryptBlob(a, key, b, other) != Err(DecryptionFailed)
                   <==> Forged(a, coins.dek, coins.nonce, PayloadAad(0, ALGORITHM, ALGORITHM, aad), plaintext,
                               PayloadAad(0, ALGORITHM, ALGORITHM, other))))
  {
    var b := EncryptBlob(a, key, plaintext, aad, coins).value;
    OpensLikePayload(a, key, plaintext, aad, coins, aad);
    OpensLikePayload(a, key, plaintext, aad, coins, other);
    RoundTrip(b);
    var d, d2 := PayloadAad(0, ALGORITHM, ALGORITHM, aad), PayloadAad(0, ALGORITHM, ALGORITHM, other);
    assert d[6..] == aad && d2[6..] == other;
    assert a.seal(coins.dek, coins.nonce, d, plaintext) == Some(b.ciphertext);
  }

  // ----- purposes

  type Uuid16 = u: Bytes | |u| == 16 witness seq(16, _ => 0)

  datatype Purpose =
    | VaultKey(vault: Uuid16)
    | Payload(vault: Uuid16, item: Uuid16)
    | RotationCandidate(vault: Uuid16, item: Uuid16)

  function Ascii(s: string): (r: Bytes)
    requires forall i :: 0 <= i < |s| ==> s[i] as int < 128
    ensures |r| == |s|
  {
    seq(|s|, i requires 0 <= i < |s| => s[i] as int as byte)
  }

  /** `vault_key_aad`, `payload_aad` and `rotation_candidate_aad`. */
  function Aad(p: Purpose): Bytes {
    match p
    case VaultKey(v) => Ascii("zann:vault_key:v1") + v
    case Payload(v, i) => Ascii("zann:payload:v1") + v + i
    case RotationCandidate(v, i) => Ascii("zann:rotation_candidate:v1") + v + i
  }

  lemma SlicesAgree(head: Bytes, v: Uuid16, i: Uuid16, w: Uuid16, j: Uuid16)
    requires head + v + i == head + w + j
    ensures v == w && i == j
  {
    var x, y := head + v + i, head + w + j;
    assert x[|head|..|head| + 16] == v && y[|head|..|head| + 16] == w;
    assert x[|head| + 16..] == i && y[|head| + 16..] == j;
  }

  /** Associated data are injective, and those of different purposes never meet. */
  lemma AadIsInjective(p: Purpose, q: Purpose)
    requires Aad(p) == Aad(q)
    ensures p == q
  {
    assert |Aad(p)| == match p case VaultKey(_) => 33 case Payload(_, _) => 47 case RotationCandidate(_, _) => 58;
    assert |Aad(q)| == match q case VaultKey(_) => 33 case Payload(_, _) => 47 case RotationCandidate(_, _) => 58;
    match p
    case VaultKey(v) =>
      var head := Ascii("zann:vault_key:v1");
      assert Aad(p)[|head|..] == v && Aad(q)[|head|..] == q.vault;
    case Payload(v, i) => SlicesAgree(Ascii("zann:payload:v1"), v, i, q.vault, q.item);
    case RotationCandidate(v, i) => SlicesAgree(Ascii("zann:rotation_candidate:v1"), v, i, q.vault, q.item);
  }

  datatype VaultCryptoError = BadBlob | BadKeyLength | EncryptFailed | DecryptFailed

  /** `encrypt_vault_key`, `encrypt_payload_bytes` and `encrypt_rotation_candidate`. */
  function SealFor(a: Aead, key: Key, p: Purpose, plaintext: Bytes, coins: Coins): Result<Bytes, VaultCryptoError> {
    match EncryptBlob(a, key, plaintext, Aad(p), coins)
    case Err(_) => Err(EncryptFailed)
    case Ok(b) => Ok(Serialised(b))
  }

  /** Their decrypting counterparts; a vault key must have the length of a key. */
  function OpenFor(a: Aead, key: Key, p: Purpose, sealed: Bytes): Result<Bytes, VaultCryptoError> {
    match Parsed(sealed)
    case Err(_) => Err(BadBlob)
    case Ok(b) =>
      match DecryptBlob(a, key, b, Aad(p))
      case Err(_) => Err(DecryptFailed)
      case Ok(m) => if p.VaultKey? && |m| != KEY_LEN then Err(BadKeyLength) else Ok(m)
  }

  /**
    A blob sealed for one purpose, vault and item opens for it, to the plaintext. For any other
    purpose, vault or item decryption fails, if and only if the cipher does not open this one sealed
    text under the other's data: the associated data alone never confuse two purposes.
    (A vault key is sealed from a key, so its length is right.)
   */
  lemma OpensForItsPurposeOnly(a: Aead, key: Key, p: Purpose, q: Purpose, plaintext: Bytes, coins: Coins)
    requires Correct(a)
    requires SealFor(a, key, p, plaintext, coins).Ok?
    requires p.VaultKey? ==> |plaintext| == KEY_LEN
    ensures var sealed := SealFor(a, key, p, plaintext, coins).value;
            && OpenFor(a, key, p, sealed) == Ok(plaintext)
            && (q != p ==>
                  (OpenFor(a, key, q, sealed) == Err(DecryptFailed)
                   <==> !Forged(a, coins.dek, coins.nonce, PayloadAad(0, ALGORITHM, ALGORITHM, Aad(p)), plaintext,
                                PayloadAad(0, ALGORITHM, ALGORITHM, Aad(q)))))
  {
    EnvelopeEndToEnd(a, key, plaintext, Aad(p), coins, Aad(q));
    OpensLikePayload(a, key, plaintext, Aad(p), coins, Aad(q));
    if q != p && Aad(q) == Aad(p) {
      AadIsInjective(q, p);
    }
  }

  // ----- the header is bound

  lemma PayloadAadIsInjective(k: u32, d: byte, e: byte, aad: Bytes, k2: u32, d2: byte, e2: byte, aad2: Bytes)
    requires PayloadAad(k, d, e, aad) == PayloadAad(k2, d2, e2, aad2)
    ensures k == k2 && d == d2 && e == e2 && aad == aad2
  {
    var x, y := PayloadAad(k, d, e, aad), PayloadAad(k2, d2, e2, aad2);
    assert x[..4] == Le4(k) && y[..4] == Le4(k2);
    Le4RoundTrip(k);
    Le4RoundTrip(k2);
    assert x[4] == d && y[4] == d2 && x[5] == e && y[5] == e2;
    assert x[6..] == aad && y[6..] == aad2;
  }

  /**
    A blob whose header was changed after encryption: other algorithms are refused by number, and another key
    number makes decryption fail, if and only if the cipher does not open the sealed text under the data of the
    changed header.
   */
  lemma HeaderIsBound(a: Aead, key: Key, plaintext: Bytes, aad: Bytes, coins: Coins, kekId: u32, algoDek: byte,
                      algoKek: byte)
    requires Correct(a) && EncryptBlob(a, key, plaintext, aad, coins).Ok?
    ensures var b := EncryptBlob(a, key, plaintext, aad, coins).value;
            var r := DecryptBlob(a, key, b.(kekId := kekId, algoDek := algoDek, algoKek := algoKek), aad);
            && (algoDek != 1 || algoKek != 1 ==> r == Err(UnsupportedAlgorithm(algoDek)))
            && (algoDek == 1 && algoKek == 1 && kekId == 0 ==> r == Ok(plaintext))
            && (algoDek == 1 && algoKek == 1 && kekId != 0 ==>
                  (r == Err(DecryptionFailed)
                   <==> !Forged(a, coins.dek, coins.nonce, [0, 0, 0, 0, 1, 1] + aad, plaintext,
                                PayloadAad(kekId, 1, 1, aad))))
  {
    UnwrapsBack(a, key, coins.dek, coins.dekNonce);
    EnvelopeEndToEnd(a, key, plaintext, aad, coins, aad);
    SealedData(aad);
    if kekId != 0 && PayloadAad(kekId, 1, 1, aad) == PayloadAad(0, 1, 1, aad) {
      PayloadAadIsInjective(kekId, 1, 1, aad, 0, 1, 1, aad);
    }
  }

  lemma SealedData(aad: Bytes)
    ensures PayloadAad(0, ALGORITHM, ALGORITHM, aad) == [0, 0, 0, 0, 1, 1] + aad
  {
  }

  /** An encrypted blob: key number 0, algorithm 1 twice, the nonces as drawn, and the two sealed texts. */
  lemma BlobIs(a: Aead, key: Key, plaintext: Bytes, aad: Bytes, coins: Coins)
    requires Correct(a) && EncryptBlob(a, key, plaintext, aad, coins).Ok?
    ensures var b := EncryptBlob(a, key, plaintext, aad, coins).value;
            && b.kekId == 0 && b.algoDek == 1 && b.algoKek == 1
            && |b.encDek| == 72 && b.encDek[..24] == coins.dekNonce && b.nonce == coins.nonce && |b.nonce| == 24
            && a.seal(key, coins.dekNonce, [], coins.dek) == Some(b.encDek[24..])
            && a.seal(coins.dek, coins.nonce, [0, 0, 0, 0, 1, 1] + aad, plaintext) == Some(b.ciphertext)
            && |b.ciphertext| == |plaintext| + 16
  {
    UnwrapsBack(a, key, coins.dek, coins.dekNonce);
    SealedData(aad);
    var c := a.seal(key, coins.dekNonce, [], coins.dek).value;
    assert (coins.dekNonce + c)[..24] == coins.dekNonce && (coins.dekNonce + c)[24..] == c;
  }

  /** The associated data of a purpose: its label, the vault, and for item data the item. */
  lemma AadIs(p: Purpose)
    ensures var head := match p
              case VaultKey(_) => "zann:vault_key:v1"
              case Payload(_, _) => "zann:payload:v1"
              case RotationCandidate(_, _) => "zann:rotation_candidate:v1";
            && |Aad(p)| == |head| + (if p.VaultKey? then 16 else 32)
            && (forall i :: 0 <= i < |head| ==> Aad(p)[i] as int == head[i] as int)
            && Aad(p)[|head|..|head| + 16] == p.vault
            && (!p.VaultKey? ==> Aad(p)[|head| + 16..] == p.item)
  {
  }

  // ----- what is refused

  /** A wrapped key: a nonce of 24 bytes and what the cipher opens to 32. */
  predicate HoldsKey(a: Aead, key: Key, encDek: Bytes, dek: Bytes) {
    |encDek| >= 24 && a.open(key, encDek[..24], [], encDek[24..]) == Some(dek) && |dek| == 32
  }

  /**
    Exactly which blobs open, and to what: both algorithms are number 1, the wrapped key is one, the nonce has 24
    bytes, and the cipher opens the payload under the header and the caller's data.
   */
  lemma OpensIff(a: Aead, key: Key, b: Blob, aad: Bytes, m: Bytes)
    ensures DecryptBlob(a, key, b, aad) == Ok(m) <==>
            && b.algoDek == 1 && b.algoKek == 1 && |b.nonce| == 24
            && exists dek: Key :: HoldsKey(a, key, b.encDek, dek)
                                  && a.open(dek, b.nonce, Le4(b.kekId) + [1, 1] + aad, b.ciphertext) == Some(m)
    ensures forall n :: DecryptBlob(a, key, b, aad) == Err(UnsupportedAlgorithm(n)) <==>
                        n == b.algoDek && (b.algoDek != 1 || b.algoKek != 1)
    ensures DecryptBlob(a, key, b, aad) != Err(EncryptionFailed)
  {
    var r := UnwrapDek(a, key, b.encDek);
    assert r.Ok? ==> HoldsKey(a, key, b.encDek, r.value);
    assert forall dek: Key :: HoldsKey(a, key, b.encDek, dek) ==> r == Ok(dek);
    hide UnwrapDek, HoldsKey, Le4;
  }

  /** Opening for a purpose: bytes that are no blob, a blob that does not open, and a vault key of the wrong length. */
  lemma OpenForIs(a: Aead, key: Key, p: Purpose, sealed: Bytes)
    ensures var r := OpenFor(a, key, p, sealed);
            && (r == Err(BadBlob) <==> Parsed(sealed).Err?)
            && (Parsed(sealed).Ok? ==>
                  var d := DecryptBlob(a, key, Parsed(sealed).value, Aad(p));
                  && (d.Err? <==> r == Err(DecryptFailed))
                  && (d.Ok? && p.VaultKey? && |d.value| != 32 <==> r == Err(BadKeyLength))
                  && (d.Ok? && (p.VaultKey? ==> |d.value| == 32) ==> r == Ok(d.value)))
  {
  }
}
