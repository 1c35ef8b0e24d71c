/** Signed manifests: agent/internal/backup/store.go.
  *
  * Cryptography is idealised symbolically. A digest is determined by, and
  * determines, what was hashed; a valid signature names its key and the exact
  * document it was made over; base64 text is known by what it decodes to. */
module Manifests {
  import opened Prelude

  type Byte = b: int | 0 <= b < 256
  type Bytes = seq<Byte>

  /** The text in a chunk_sha256 entry: a real digest, or anything else. */
  datatype HashText = Sha256Hex(preimage: Bytes) | OtherText(text: string)

  /** A registered key's text: 32 key bytes in base64, or something else. */
  datatype PublicKey = Ed25519Key(id: nat) | MalformedKey(text: string)

  datatype SigningKey = SigningKey(id: nat) {
    function Public(): PublicKey { Ed25519Key(id) }
  }

  datatype Manifest = Manifest(
    version: int,
    backupId: string,
    createdAt: int,
    totalBytes: int,
    chunkHashes: seq<HashText>,
    signingKey: PublicKey)

  /** Raw bytes handed to the JSON decoder. Different bytes ("spellings") can
    * decode to the same manifest; a signature covers the bytes. */
  datatype Document = Json(manifest: Manifest, spelling: nat) | NotJson(raw: Bytes)

  datatype Signature = Ed25519Signature(signer: PublicKey, signed: Document) | OtherBytes(raw: Bytes)

  datatype Base64<+T> = Encoded(value: T) | NotBase64(text: string)

  datatype SignedManifest = SignedManifest(manifest: Base64<Document>, signature: Base64<Signature>)

  /** What the empty string decodes to. */
  const EMPTY_TEXT: Base64<Document> := Encoded(NotJson([]))

  datatype Problem = MalformedManifest | MalformedSignature | UntrustedSignature

  function SignManifest(m: Manifest, key: SigningKey): SignedManifest {
    var doc := Json(m, 0);
    SignedManifest(Encoded(doc), Encoded(Ed25519Signature(key.Public(), doc)))
  }

  /** ed25519.Verify under a decoded key. */
  predicate Verifies(key: PublicKey, doc: Document, sig: Signature) {
    sig == Ed25519Signature(key, doc)
  }

  predicate AnyKeyVerifies(trusted: seq<PublicKey>, doc: Document, sig: Signature)
    requires doc.Json?
  {
    trusted != [] &&
    ((trusted[0] == doc.manifest.signingKey && trusted[0].Ed25519Key? && Verifies(trusted[0], doc, sig))
     || AnyKeyVerifies(trusted[1..], doc, sig))
  }

  /** The manifest inside a stored document, when it decodes. */
  function Decoded(sm: SignedManifest): Option<Manifest> {
    if sm.manifest.Encoded? && sm.manifest.value.Json? then Some(sm.manifest.value.manifest) else None
  }

  /** sm carries m, signed over its exact bytes by the key m itself names. */
  predicate SelfSigned(sm: SignedManifest, m: Manifest) {
    && Decoded(sm) == Some(m)
    && sm.signature == Encoded(Ed25519Signature(m.signingKey, sm.manifest.value))
    && m.signingKey.Ed25519Key?
  }

  /** Accepts exactly the documents whose named key is trusted and signed them. */
  function VerifyManifest(sm: SignedManifest, trusted: seq<PublicKey>): (r: Result<Manifest, Problem>)
    ensures r.Success? ==> SelfSigned(sm, r.value) && r.value.signingKey in trusted
    ensures forall m :: SelfSigned(sm, m) && m.signingKey in trusted ==> r == Success(m)
    ensures sm.manifest.NotBase64? ==> r == Failure(MalformedManifest)
    ensures sm.manifest.Encoded? && sm.signature.NotBase64? ==> r == Failure(MalformedSignature)
    ensures sm.signature.Encoded? && sm.manifest.Encoded? && r.Failure? ==>
              r.error == if sm.manifest.value.Json? then UntrustedSignature else MalformedManifest
  {
    if sm.manifest.NotBase64? then Failure(MalformedManifest)
    else if sm.signature.NotBase64? then Failure(MalformedSignature)
    else if sm.manifest.value.NotJson? then Failure(MalformedManifest)
    else
      AnyKeyMeaning(trusted, sm.manifest.value, sm.signature.value);
      if AnyKeyVerifies(trusted, sm.manifest.value, sm.signature.value)
      then Success(sm.manifest.value.manifest)
      else Failure(UntrustedSignature)
  }

  lemma {:induction false} AnyKeyMeaning(trusted: seq<PublicKey>, doc: Document, sig: Signature)
    requires doc.Json?
    ensures AnyKeyVerifies(trusted, doc, sig) <==>
            doc.manifest.signingKey in trusted && doc.manifest.signingKey.Ed25519Key? && Verifies(doc.manifest.signingKey, doc, sig)
  {
    if trusted != [] {
      AnyKeyMeaning(trusted[1..], doc, sig);
      assert doc.manifest.signingKey in trusted <==>
             doc.manifest.signingKey == trusted[0] || doc.manifest.signingKey in trusted[1..];
    }
  }

  /** Signing then verifying gives the manifest back exactly when its embedded
    * key is the signer's own and that key is trusted. */
  lemma SignThenVerify(m: Manifest, key: SigningKey, trusted: seq<PublicKey>)
    ensures VerifyManifest(SignManifest(m, key), trusted) == Success(m)
            <==> m.signingKey == key.Public() && key.Public() in trusted
  {
    var sm := SignManifest(m, key);
    if m.signingKey == key.Public() && key.Public() in trusted {
      assert SelfSigned(sm, m);
    }
  }
}
