// Credential IDs of src/ctap/credential_id.rs: the padding scheme of section 6.3 of RFC 5652
// with a 192-byte block, and the encrypted, authenticated ID built on it.

module Padding {
  import opened Bytes

  const MAX_PADDING_LENGTH: nat := 191
  const BLOCK: nat := MAX_PADDING_LENGTH + 1

  /** data followed by as many bytes as are missing to a block, each holding that number. */
  ghost predicate PaddingOf(data: ByteString, padded: ByteString) {
    && 1 <= |data| <= MAX_PADDING_LENGTH && |padded| == BLOCK
    && padded[..|data|] == data
    && forall i :: |data| <= i < BLOCK ==> padded[i] == BLOCK - |data|
  }

  /** A growable byte buffer, changed in place. */
  class Buffer {
    var bytes: ByteString

    constructor (bytes: ByteString)
      ensures this.bytes == bytes
    {
      this.bytes := bytes;
    }

    /** Pad to a block. Empty data and data that fills the block are refused and left alone. */
    method AddPadding() returns (ok: bool)
      modifies this
      ensures ok <==> 1 <= |old(bytes)| <= MAX_PADDING_LENGTH
      ensures ok ==> PaddingOf(old(bytes), bytes)
      ensures !ok ==> bytes == old(bytes)
    {
      if |bytes| == 0 || |bytes| > MAX_PADDING_LENGTH {
        return false;
      }
      var padLength: byte := MAX_PADDING_LENGTH - (|bytes| - 1);
      bytes := bytes + seq(padLength, _ => padLength);
      return true;
    }

    /** Strip the padding. Accepted are exactly the blocks that are a padding of something. */
    method RemovePadding() returns (ok: bool)
      modifies this
      ensures ok <==> exists data :: PaddingOf(data, old(bytes))
      ensures ok ==> PaddingOf(bytes, old(bytes))
    {
      ghost var before := bytes;
      if |bytes| != BLOCK {
        return false;
      }
      var padLength := bytes[|bytes| - 1];
      if padLength == 0 || padLength > MAX_PADDING_LENGTH {
        return false;
      }
      var tail := bytes[|bytes| - padLength..];
      bytes := bytes[..|bytes| - padLength];
      // drained whether or not the bytes agree
      var i := 0;
      while i < |tail| && tail[i] == padLength
        invariant i <= |tail|
        invariant forall j :: 0 <= j < i ==> tail[j] == padLength
      {
        i := i + 1;
      }
      if i < |tail| {
        assert before[BLOCK - padLength + i] != padLength == before[BLOCK - 1];
        return false;
      }
      assert forall k :: BLOCK - padLength <= k < BLOCK ==> before[k] == tail[k - (BLOCK - padLength)];
      assert PaddingOf(bytes, before);
      return true;
    }
  }

  /** A block is the padding of at most one thing. */
  lemma PaddingIsUnique(a: ByteString, b: ByteString, padded: ByteString)
    requires PaddingOf(a, padded) && PaddingOf(b, padded)
    ensures a == b && |padded| == 192 && |a| == 192 - padded[191]
  {
    assert padded[BLOCK - 1] == BLOCK - |a| == BLOCK - |b|;
    assert a == padded[..|a|] && b == padded[..|b|];
  }

  /** Padding and stripping gives the data back, for every length the scheme covers. */
  method PadThenStrip(data: ByteString) returns (back: ByteString)
    requires 1 <= |data| <= MAX_PADDING_LENGTH
    ensures back == data
  {
    var buffer := new Buffer(data);
    var padded := buffer.AddPadding();
    ghost var block := buffer.bytes;
    var ok := buffer.RemovePadding();
    back := buffer.bytes;
    PaddingIsUnique(back, data, block);
  }
}

module CredentialIds {
  import opened Bytes
  import opened Padding
  import opened Results

  const LEGACY_CREDENTIAL_ID_SIZE: nat := 112
  const CBOR_CREDENTIAL_ID_SIZE: nat := 241
  const CBOR_CREDENTIAL_ID_VERSION: byte := 1

  datatype Error = InternalError | BadParameter | BadEncoding

  /** What an ID carries: the key, the RP it is for, and the optional fields. */
  datatype Source = Source(
    privateKey: ByteString, rpIdHash: ByteString, credProtect: Option<nat>, credBlob: Option<ByteString>)

  /** The CBOR map an ID holds; a field can be absent. */
  datatype Fields = Fields(
    privateKey: Option<ByteString>, rpIdHash: Option<ByteString>,
    credProtect: Option<nat>, credBlob: Option<ByteString>)

  /** The primitives, which are parameters: AES-256 in CBC mode, HMAC-SHA256 and the CBOR codec. */
  datatype Primitives = Primitives(
    encrypt: (ByteString, ByteString, ByteString) -> ByteString,  // key, IV, plaintext
    decrypt: (ByteString, ByteString, ByteString) -> ByteString,
    mac: (ByteString, ByteString) -> ByteString,                  // key, message
    write: Fields -> ByteString,
    read: ByteString -> Option<Fields>,
    validKey: ByteString -> bool)                                 // bytes that are an ECDSA key

  const IV: nat := 16
  const MAC: nat := 32

  /** What the primitives are for; the cipher works on whole 16-byte blocks. */
  ghost predicate Lawful(p: Primitives) {
    && (forall k, iv, m :: |m| % 16 == 0 ==> |p.encrypt(k, iv, m)| == |m| && p.decrypt(k, iv, p.encrypt(k, iv, m)) == m)
    && (forall k, iv, m :: |m| % 16 == 0 ==> |p.decrypt(k, iv, m)| == |m|)
    && (forall k, m :: |p.mac(k, m)| == MAC)
    && (forall f :: p.read(p.write(f)) == Some(f))
  }

  datatype Keys = Keys(encryption: ByteString, authentication: ByteString)

  function Encoded(p: Primitives, s: Source): ByteString {
    p.write(Fields(Some(s.privateKey), Some(s.rpIdHash), s.credProtect, s.credBlob))
  }

  /** aes256_cbc_encrypt with the IV in front; a plaintext of partial blocks is refused. */
  function CbcEncrypt(p: Primitives, key: ByteString, iv: ByteString, plaintext: ByteString)
    : Result<ByteString, Error>
  {
    if |plaintext| % 16 != 0 then Err(BadParameter) else Ok(iv + p.encrypt(key, iv, plaintext))
  }

  function CbcDecrypt(p: Primitives, key: ByteString, bytes: ByteString): Result<ByteString, Error> {
    if |bytes| % 16 != 0 || bytes == [] then Err(BadParameter) else Ok(p.decrypt(key, bytes[..IV], bytes[IV..]))
  }

  /** What is left of an ID when its MAC is cut off. */
  function Signed(id: ByteString): ByteString
    requires |id| >= MAC
  {
    id[..|id| - MAC]
  }

  /** The last 32 bytes are the MAC of everything before them. */
  ghost predicate Authentic(p: Primitives, keys: Keys, id: ByteString) {
    |id| >= MAC && id[|id| - MAC..] == p.mac(keys.authentication, Signed(id))
  }

  /** The byte layout of the ID of a source: version, IV, encrypted padded CBOR, MAC. */
  ghost predicate IdOf(p: Primitives, keys: Keys, s: Source, id: ByteString) {
    && |id| == CBOR_CREDENTIAL_ID_SIZE
    && id[0] == CBOR_CREDENTIAL_ID_VERSION
    && Authentic(p, keys, id)
    && exists padded :: (
      && PaddingOf(Encoded(p, s), padded)
      && id[1 + IV..1 + IV + BLOCK] == p.encrypt(keys.encryption, id[1..1 + IV], padded))
  }

  /** Encrypt a source into an ID; it fails exactly when the CBOR does not fit the block. */
  method EncryptToCredentialId(p: Primitives, keys: Keys, s: Source, iv: ByteString)
    returns (r: Result<ByteString, Error>)
    requires Lawful(p) && |iv| == IV
    ensures r.Ok? <==> 1 <= |Encoded(p, s)| <= MAX_PADDING_LENGTH
    ensures r.Ok? ==> IdOf(p, keys, s, r.value)
  {
    var payload := new Buffer(Encoded(p, s));
    var ok := payload.AddPadding();
    if !ok {
      return Err(InternalError);
    }
    var encrypted := CbcEncrypt(p, keys.encryption, iv, payload.bytes);
    match encrypted
    case Err(e) => return Err(e);
    case Ok(body) =>
      var id := [CBOR_CREDENTIAL_ID_VERSION] + body;
      var signed := id + p.mac(keys.authentication, id);
      assert Signed(signed) == id && signed[1..1 + IV] == iv;
      assert signed[1 + IV..1 + IV + BLOCK] == p.encrypt(keys.encryption, iv, payload.bytes);
      return Ok(signed);
  }

  /** A source from CBOR fields: without the two required ones there is none; a bad hash is an error. */
  function FromFields(f: Fields): Result<Option<Source>, Error> {
    if f.privateKey == None || f.rpIdHash == None then Ok(None)
    else if |f.rpIdHash.value| != 32 then Err(InternalError)
    else Ok(Some(Source(f.privateKey.value, f.rpIdHash.value, f.credProtect, f.credBlob)))
  }

  /** What the CBOR inside a padded plaintext says. */
  function FromCbor(p: Primitives, data: ByteString): Result<Option<Source>, Error> {
    var fields := p.read(data);
    if fields.None? then Err(BadEncoding) else FromFields(fields.value)
  }

  /** What the CBOR of an ID leads to: a damaged one or a bad RP hash is an error, a missing field is no source. */
  lemma CborSays(p: Primitives, data: ByteString)
    ensures FromCbor(p, data) == Err(BadEncoding) <==> p.read(data) == None
    ensures p.read(data).Some? ==>
      var f := p.read(data).value;
      && (FromCbor(p, data) == Ok(None) <==> f.privateKey == None || f.rpIdHash == None)
      && (FromCbor(p, data).Err? <==> f.privateKey.Some? && f.rpIdHash.Some? && |f.rpIdHash.value| != 32)
      && (FromCbor(p, data).Err? ==> FromCbor(p, data).error == InternalError)
      && (FromCbor(p, data).Ok? && FromCbor(p, data).value.Some? ==>
            var s := FromCbor(p, data).value.value;
            f == Fields(Some(s.privateKey), Some(s.rpIdHash), s.credProtect, s.credBlob))
  {
  }

  /** What an encrypted block holds: the CBOR that was padded to it, or it is no padding at all. */
  ghost predicate ReadsBlock(p: Primitives, key: ByteString, bytes: ByteString, r: Result<Option<Source>, Error>)
    requires |bytes| >= IV
  {
    var block := p.decrypt(key, bytes[..IV], bytes[IV..]);
    && (forall data :: PaddingOf(data, block) ==> r == FromCbor(p, data))
    && ((forall data :: !PaddingOf(data, block)) ==> r == Err(InternalError))
  }

  method DecryptCbor(p: Primitives, key: ByteString, bytes: ByteString) returns (r: Result<Option<Source>, Error>)
    requires Lawful(p) && |bytes| == IV + BLOCK
    ensures ReadsBlock(p, key, bytes, r)
  {
    match CbcDecrypt(p, key, bytes)
    case Err(e) => return Err(e);
    case Ok(plaintext) =>
      var buffer := new Buffer(plaintext);
      var ok := buffer.RemovePadding();
      if !ok {
        return Err(InternalError);
      }
      forall data | PaddingOf(data, plaintext) ensures data == buffer.bytes {
        PaddingIsUnique(data, buffer.bytes, plaintext);
      }
      return FromCbor(p, buffer.bytes);
  }

  /** An ID of the first version: an encrypted ECDSA key and RP hash, nothing else. */
  function DecryptLegacy(p: Primitives, key: ByteString, bytes: ByteString): Result<Option<Source>, Error> {
    var plaintext := CbcDecrypt(p, key, bytes);
    if plaintext.Err? then Err(plaintext.error)
    else if |plaintext.value| != 64 || !p.validKey(plaintext.value[..32]) then Ok(None)
    else Ok(Some(Source(plaintext.value[..32], plaintext.value[32..], None, None)))
  }

  /** Keep what was found only if it is for this RP. */
  function ForRp(found: Option<Source>, rpIdHash: ByteString): Option<Source> {
    if found.Some? && found.value.rpIdHash == rpIdHash then found else None
  }

  /** An ID of the first version: IV, encrypted key and RP hash, MAC. */
  ghost predicate LegacyIdOf(p: Primitives, keys: Keys, s: Source, id: ByteString) {
    && |id| == LEGACY_CREDENTIAL_ID_SIZE && Authentic(p, keys, id)
    && |s.privateKey| == |s.rpIdHash| == 32 && s.credProtect == None && s.credBlob == None
    && id[IV..|id| - MAC] == p.encrypt(keys.encryption, id[..IV], s.privateKey + s.rpIdHash)
  }

  lemma LegacyReads(p: Primitives, keys: Keys, s: Source, id: ByteString)
    requires Lawful(p) && LegacyIdOf(p, keys, s, id)
    ensures DecryptLegacy(p, keys.encryption, Signed(id)) == Ok(if p.validKey(s.privateKey) then Some(s) else None)
  {
    var body, text := Signed(id), s.privateKey + s.rpIdHash;
    assert body[..IV] == id[..IV] && body[IV..] == id[IV..|id| - MAC];
    assert |text| % 16 == 0;
    assert text[..32] == s.privateKey && text[32..] == s.rpIdHash;
  }

  lemma BlockReads(p: Primitives, keys: Keys, s: Source, id: ByteString, r: Result<Option<Source>, Error>)
    requires Lawful(p) && IdOf(p, keys, s, id) && |s.rpIdHash| == 32
    requires ReadsBlock(p, keys.encryption, id[1..|id| - MAC], r)
    ensures r == Ok(Some(s))
  {
    var bytes := id[1..|id| - MAC];
    assert bytes[..IV] == id[1..1 + IV] && bytes[IV..] == id[1 + IV..1 + IV + BLOCK];
    var padded :| PaddingOf(Encoded(p, s), padded)
      && bytes[IV..] == p.encrypt(keys.encryption, bytes[..IV], padded);
    assert p.decrypt(keys.encryption, bytes[..IV], bytes[IV..]) == padded;
    assert r == FromCbor(p, Encoded(p, s));
  }

  lemma IdSizes(p: Primitives, keys: Keys, s: Source, id: ByteString)
    ensures IdOf(p, keys, s, id) ==> |id| == 241 && id[0] == 1 && Authentic(p, keys, id)
    ensures LegacyIdOf(p, keys, s, id) ==> |id| == 112 && Authentic(p, keys, id)
  {
  }

  /** What comes out: a source only for its own RP, and that of any ID made for one, if its key is a key. */
  ghost predicate Opened(
    p: Primitives, keys: Keys, id: ByteString, rpIdHash: ByteString, r: Result<Option<Source>, Error>)
  {
    && (forall s :: IdOf(p, keys, s, id) && |s.rpIdHash| == 32 ==> r == Ok(ForRp(Some(s), rpIdHash)))
    && (forall s :: LegacyIdOf(p, keys, s, id) ==>
          r == Ok(if p.validKey(s.privateKey) then ForRp(Some(s), rpIdHash) else None))
  }

  lemma OpenedAs(
    p: Primitives, keys: Keys, id: ByteString, rpIdHash: ByteString, source: Result<Option<Source>, Error>)
    requires Lawful(p) && |id| >= MAC + 1
    requires |id| == LEGACY_CREDENTIAL_ID_SIZE ==> source == DecryptLegacy(p, keys.encryption, Signed(id))
    requires |id| == CBOR_CREDENTIAL_ID_SIZE ==> ReadsBlock(p, keys.encryption, id[1..|id| - MAC], source)
    ensures Opened(p, keys, id, rpIdHash, if source.Ok? then Ok(ForRp(source.value, rpIdHash)) else source)
  {
    hide IdOf, LegacyIdOf, Lawful, ReadsBlock, DecryptLegacy;
    forall s
      ensures IdOf(p, keys, s, id) && |s.rpIdHash| == 32 ==> source == Ok(Some(s))
      ensures LegacyIdOf(p, keys, s, id) ==> source == Ok(if p.validKey(s.privateKey) then Some(s) else None)
    {
      IdSizes(p, keys, s, id);
      if IdOf(p, keys, s, id) && |s.rpIdHash| == 32 {
        BlockReads(p, keys, s, id, source);
      }
      if LegacyIdOf(p, keys, s, id) {
        LegacyReads(p, keys, s, id);
      }
    }
  }

  /** An ID of another size, version or MAC was not made here. */
  lemma NotOpened(p: Primitives, keys: Keys, id: ByteString, rpIdHash: ByteString)
    requires !Authentic(p, keys, id)
      || (|id| != LEGACY_CREDENTIAL_ID_SIZE
          && (|id| != CBOR_CREDENTIAL_ID_SIZE || id[0] != CBOR_CREDENTIAL_ID_VERSION))
    ensures Opened(p, keys, id, rpIdHash, Ok(None))
  {
    hide IdOf, LegacyIdOf, Authentic;
    forall s ensures !IdOf(p, keys, s, id) && !LegacyIdOf(p, keys, s, id) {
      IdSizes(p, keys, s, id);
    }
  }

  /**
   * Read an ID back. IDs that were not issued here, and issued ones for another RP, are as good
   * as unknown; the ID of a source gives exactly that source.
   */
  method DecryptCredentialId(p: Primitives, keys: Keys, id: ByteString, rpIdHash: ByteString)
    returns (r: Result<Option<Source>, Error>)
    requires Lawful(p)
    ensures !Authentic(p, keys, id) ==> r == Ok(None)
    ensures |id| != LEGACY_CREDENTIAL_ID_SIZE && |id| != CBOR_CREDENTIAL_ID_SIZE ==> r == Ok(None)
    ensures |id| == CBOR_CREDENTIAL_ID_SIZE && id[0] != CBOR_CREDENTIAL_ID_VERSION ==> r == Ok(None)
    ensures Opened(p, keys, id, rpIdHash, r)
    ensures r.Ok? && r.value.Some? ==> r.value.value.rpIdHash == rpIdHash
  {
    hide IdOf, LegacyIdOf, Lawful, ReadsBlock, DecryptLegacy, Opened;
    if |id| < LEGACY_CREDENTIAL_ID_SIZE {
      NotOpened(p, keys, id, rpIdHash);
      return Ok(None);
    }
    var signed := Signed(id);
    if id[|id| - MAC..] != p.mac(keys.authentication, signed) {
      NotOpened(p, keys, id, rpIdHash);
      return Ok(None);
    }
    var source;
    if |id| == LEGACY_CREDENTIAL_ID_SIZE {
      source := DecryptLegacy(p, keys.encryption, signed);
    } else {
      if id[0] != CBOR_CREDENTIAL_ID_VERSION || |id| != CBOR_CREDENTIAL_ID_SIZE {
        NotOpened(p, keys, id, rpIdHash);
        return Ok(None);
      }
      assert signed[1..] == id[1..|id| - MAC];
      source := DecryptCbor(p, keys.encryption, signed[1..]);
    }
    OpenedAs(p, keys, id, rpIdHash, source);
    match source
    case Err(e) => return Err(e);
    case Ok(found) => return Ok(ForRp(found, rpIdHash));
  }

  /** The whole way there and back, for any source that fits: the source for its own RP, nothing for another. */
  method EncryptThenDecrypt(p: Primitives, keys: Keys, s: Source, iv: ByteString, rpIdHash: ByteString)
    returns (r: Result<Option<Source>, Error>)
    requires Lawful(p) && |iv| == IV && |s.rpIdHash| == 32
    ensures 1 <= |Encoded(p, s)| <= MAX_PADDING_LENGTH ==>
      r == Ok(if s.rpIdHash == rpIdHash then Some(s) else None)
    ensures r.Err? <==> |Encoded(p, s)| == 0 || |Encoded(p, s)| > MAX_PADDING_LENGTH
  {
    hide IdOf, LegacyIdOf, Lawful, Authentic;
    var id := EncryptToCredentialId(p, keys, s, iv);
    match id
    case Err(e) => return Err(e);
    case Ok(bytes) => r := DecryptCredentialId(p, keys, bytes, rpIdHash);
  }
}
