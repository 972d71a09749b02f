/**
  The parts of the `cryptography` package that src/KeyStore.py calls: PEM
  loading and RSA-OAEP.  The library is foreign code, so it enters the model
  as a `Backend` value handed to every operation that uses it, and what the
  library promises (OAEP inverts itself under one parameter set, and refuses
  a plaintext longer than the modulus allows) is the predicate `Sound`, which
  lemmas take as a precondition.
*/
module Crypto {
  import opened Wrappers
  import opened Text

  /** An RSA public key, known by its DER SubjectPublicKeyInfo encoding. */
  datatype PublicKey = PublicKey(spki: seq<byte>)

  /** An RSA private key, known by its DER PKCS#8 encoding. */
  datatype PrivateKey = PrivateKey(pkcs8: seq<byte>)

  datatype HashAlgorithm = SHA1 | SHA256

  function DigestSize(h: HashAlgorithm): nat {
    match h
    case SHA1 => 20
    case SHA256 => 32
  }

  /** `padding.OAEP(mgf=padding.MGF1(algorithm=mgfHash), algorithm=hash, label=oaepLabel)` */
  datatype OaepPadding = OaepPadding(mgfHash: HashAlgorithm, hash: HashAlgorithm, oaepLabel: Option<seq<byte>>)

  /**
    The library calls, as functions.  `encrypt` takes the random seed OAEP
    draws as an explicit argument; `None` results stand for the ValueError
    the library raises.
  */
  datatype Backend = Backend(
    loadPemPublic: seq<byte> -> Option<PublicKey>,
    loadPemPrivate: seq<byte> -> Option<PrivateKey>,
    publicOf: PrivateKey -> PublicKey,
    modulusBytes: PublicKey -> nat,
    encrypt: (PublicKey, OaepPadding, seq<byte>, seq<byte>) -> Option<seq<byte>>,
    decrypt: (PrivateKey, OaepPadding, seq<byte>) -> Option<seq<byte>>)

  /** The longest OAEP plaintext for a modulus of `k` bytes (RFC 8017, section 7.1.1). */
  function MaxPlaintext(k: nat, p: OaepPadding): int {
    k - 2 * DigestSize(p.hash) - 2
  }

  /**
    What the library guarantees: encryption succeeds exactly for plaintexts
    that fit, and decrypting with the private key, under the same padding,
    returns the plaintext.
  */
  ghost predicate Sound(b: Backend) {
    && (forall pub, p, m, seed :: b.encrypt(pub, p, m, seed).Some? <==> |m| <= MaxPlaintext(b.modulusBytes(pub), p))
    && (forall priv, p, m, seed :: b.encrypt(b.publicOf(priv), p, m, seed).Some? ==>
          b.decrypt(priv, p, b.encrypt(b.publicOf(priv), p, m, seed).value) == Some(m))
  }
}
