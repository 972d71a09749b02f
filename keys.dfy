/**
  The key table of src/KeyStore.py: a server and a client key pair, and a
  dictionary from peer records to optional public keys.  PEM parsing and
  RSA-OAEP are library calls and come in through a `Backend`; reading the
  PEM files is I/O, so the model takes their contents.
*/
module Keys {
  import opened Wrappers
  import opened Text
  import opened Crypto
  import opened Peers

  /** `KeyPair`: both halves start unset. */
  datatype KeyPair = KeyPair(public: Option<PublicKey> := None, private: Option<PrivateKey> := None)

  /** The two things `set_peer_key` accepts: PEM bytes, or an already loaded key. */
  datatype KeyArg = Pem(bytes: seq<byte>) | Loaded(key: PublicKey)

  /** The ValueError raised when a PEM blob does not parse. */
  datatype KeyError = MalformedPublicKey | MalformedPrivateKey

  /** A key pair after a load, and the error that stopped it, if any. */
  datatype LoadResult = LoadResult(pair: KeyPair, error: Option<KeyError>)

  /**
    `load_server_keys` / `load_client_keys` on one slot: the public key is
    parsed and stored first, and only then is the private key parsed, so a
    bad private PEM leaves the new public half in place.
  */
  function LoadPair(pair: KeyPair, publicPem: seq<byte>, privatePem: seq<byte>, b: Backend): (r: LoadResult)
    ensures r.error == None <==> b.loadPemPublic(publicPem).Some? && b.loadPemPrivate(privatePem).Some?
    ensures b.loadPemPublic(publicPem).None? ==> r == LoadResult(pair, Some(MalformedPublicKey))
    ensures b.loadPemPublic(publicPem).Some? ==> r.pair.public == b.loadPemPublic(publicPem)
    ensures b.loadPemPublic(publicPem).Some? && b.loadPemPrivate(privatePem).None? ==>
              r.error == Some(MalformedPrivateKey) && r.pair.private == pair.private
    ensures r.error == None ==> r.pair == KeyPair(b.loadPemPublic(publicPem), b.loadPemPrivate(privatePem))
  {
    match b.loadPemPublic(publicPem)
    case None => LoadResult(pair, Some(MalformedPublicKey))
    case Some(pub) =>
      var half := pair.(public := Some(pub));
      match b.loadPemPrivate(privatePem)
      case None => LoadResult(half, Some(MalformedPrivateKey))
      case Some(priv) => LoadResult(half.(private := Some(priv)), None)
  }

  /** The padding both `encrypt` and `decrypt` use: OAEP with MGF1-SHA256, SHA-256 and no label. */
  const STORE_OAEP: OaepPadding := OaepPadding(SHA256, SHA256, None)

  /** `encrypt(data, key)`; the random seed OAEP draws is a parameter. */
  function Encrypt(b: Backend, data: seq<byte>, key: PublicKey, seed: seq<byte>): (r: Option<seq<byte>>)
    ensures Sound(b) ==> (r.Some? <==> |data| <= MaxPlaintext(b.modulusBytes(key), STORE_OAEP))
  {
    b.encrypt(key, STORE_OAEP, data, seed)
  }

  /** `decrypt(data, key)`: with a sound backend, a ciphertext of `m` under the matching public key decrypts to `m`. */
  function Decrypt(b: Backend, data: seq<byte>, key: PrivateKey): (r: Option<seq<byte>>)
    ensures Sound(b) ==>
              forall m, seed {:trigger b.encrypt(b.publicOf(key), STORE_OAEP, m, seed)} ::
                b.encrypt(b.publicOf(key), STORE_OAEP, m, seed) == Some(data) ==> r == Some(m)
  {
    b.decrypt(key, STORE_OAEP, data)
  }

  /** With the same padding on both sides, decryption with the private key undoes encryption with its public key. */
  lemma DecryptInvertsEncrypt(b: Backend, priv: PrivateKey, data: seq<byte>, seed: seq<byte>)
    requires Sound(b)
    requires |data| <= MaxPlaintext(b.modulusBytes(b.publicOf(priv)), STORE_OAEP)
    ensures Encrypt(b, data, b.publicOf(priv), seed).Some?
    ensures Decrypt(b, Encrypt(b, data, b.publicOf(priv), seed).value, priv) == Some(data)
  {
    var c := b.encrypt(b.publicOf(priv), STORE_OAEP, data, seed);
    assert c.Some?;
    assert b.decrypt(priv, STORE_OAEP, c.value) == Some(data);
  }

  /** A slot loaded from the two halves of one key pair encrypts and decrypts round trip. */
  lemma LoadedPairInverts(pair: KeyPair, publicPem: seq<byte>, privatePem: seq<byte>, b: Backend,
                          data: seq<byte>, seed: seq<byte>)
    requires Sound(b)
    requires LoadPair(pair, publicPem, privatePem, b).error == None
    requires b.publicOf(b.loadPemPrivate(privatePem).value) == b.loadPemPublic(publicPem).value
    requires |data| <= MaxPlaintext(b.modulusBytes(b.loadPemPublic(publicPem).value), STORE_OAEP)
    ensures var p := LoadPair(pair, publicPem, privatePem, b).pair;
            && p.public.Some? && p.private.Some?
            && Encrypt(b, data, p.public.value, seed).Some?
            && Decrypt(b, Encrypt(b, data, p.public.value, seed).value, p.private.value) == Some(data)
  {
    DecryptInvertsEncrypt(b, b.loadPemPrivate(privatePem).value, data, seed);
  }

  /** The TypeError Python raises when an unhashable object is used as a dictionary key. */
  datatype StoreFailure = UnhashableKey

  /** `d[k] = v` with a peer record as key, for a record class declared with options `o`. */
  function DictStore<V>(m: map<PeerNode, V>, k: PeerNode, v: V, o: DataclassOptions): (r: Result<map<PeerNode, V>, StoreFailure>)
    ensures r.Success? <==> Hashable(o)
    ensures r.Success? ==> r.value == m[k := v]
  {
    if Hashable(o) then Success(m[k := v]) else Failure(UnhashableKey)
  }

  /** As declared, the peer record cannot be a key: every store into the table raises. */
  lemma PeerNodeKeyRejected(m: map<PeerNode, Option<PublicKey>>, p: PeerNode, key: Option<PublicKey>)
    ensures DictStore(m, p, key, PEER_NODE_OPTIONS) == Failure(UnhashableKey)
  {
  }

  /** Declared with `unsafe_hash=True`, the store is the map update the key table is meant to perform. */
  lemma HashedPeerNodeKeyStored(m: map<PeerNode, Option<PublicKey>>, p: PeerNode, key: Option<PublicKey>)
    ensures DictStore(m, p, key, HASHED_PEER_NODE_OPTIONS) == Success(m[p := key])
  {
  }

  /**
    `KeyStore`.  The peer table is the map the source intends; the key
    pairs are owned by the store alone, so they are held as values and
    replaced where the source assigns their attributes.
  */
  class KeyStore {
    var serverKeypair: KeyPair
    var clientKeypair: KeyPair
    var peerPublicKeys: map<PeerNode, Option<PublicKey>>

    /** A fresh store: both pairs unset, no peers. */
    constructor()
      ensures serverKeypair == KeyPair(None, None) && clientKeypair == KeyPair(None, None)
      ensures peerPublicKeys == map[]
    {
      serverKeypair := KeyPair();
      clientKeypair := KeyPair();
      peerPublicKeys := map[];
    }

    /** `load_server_keys`: only the server slot changes. */
    method LoadServerKeys(publicPem: seq<byte>, privatePem: seq<byte>, b: Backend) returns (err: Option<KeyError>)
      modifies this
      ensures serverKeypair == LoadPair(old(serverKeypair), publicPem, privatePem, b).pair
      ensures err == LoadPair(old(serverKeypair), publicPem, privatePem, b).error
      ensures clientKeypair == old(clientKeypair) && peerPublicKeys == old(peerPublicKeys)
    {
      var pub := b.loadPemPublic(publicPem);
      if pub.None? {
        return Some(MalformedPublicKey);
      }
      serverKeypair := serverKeypair.(public := pub);
      var priv := b.loadPemPrivate(privatePem);
      if priv.None? {
        return Some(MalformedPrivateKey);
      }
      serverKeypair := serverKeypair.(private := priv);
      err := None;
    }

    /** `load_client_keys`: only the client slot changes. */
    method LoadClientKeys(publicPem: seq<byte>, privatePem: seq<byte>, b: Backend) returns (err: Option<KeyError>)
      modifies this
      ensures clientKeypair == LoadPair(old(clientKeypair), publicPem, privatePem, b).pair
      ensures err == LoadPair(old(clientKeypair), publicPem, privatePem, b).error
      ensures serverKeypair == old(serverKeypair) && peerPublicKeys == old(peerPublicKeys)
    {
      var pub := b.loadPemPublic(publicPem);
      if pub.None? {
        return Some(MalformedPublicKey);
      }
      clientKeypair := clientKeypair.(public := pub);
      var priv := b.loadPemPrivate(privatePem);
      if priv.None? {
        return Some(MalformedPrivateKey);
      }
      clientKeypair := clientKeypair.(private := priv);
      err := None;
    }

    /** `add_peer`: the peer now maps to `key` (possibly none), replacing any earlier entry; nothing else changes. */
    method AddPeer(peer: PeerNode, key: Option<PublicKey>)
      modifies this
      ensures peer in peerPublicKeys && peerPublicKeys[peer] == key
      ensures peerPublicKeys == old(peerPublicKeys)[peer := key]
      ensures serverKeypair == old(serverKeypair) && clientKeypair == old(clientKeypair)
    {
      peerPublicKeys := peerPublicKeys[peer := key];
    }

    /**
      `set_peer_key`: a loaded key is stored as it is, PEM bytes are parsed
      first; a PEM blob that does not parse raises before anything changes.
    */
    method SetPeerKey(peer: PeerNode, key: KeyArg, b: Backend) returns (err: Option<KeyError>)
      modifies this
      ensures key.Loaded? ==> err == None && peerPublicKeys == old(peerPublicKeys)[peer := Some(key.key)]
      ensures key.Pem? ==> (err == None <==> b.loadPemPublic(key.bytes).Some?)
      ensures key.Pem? && err == None ==> peerPublicKeys == old(peerPublicKeys)[peer := b.loadPemPublic(key.bytes)]
      ensures err != None ==> err == Some(MalformedPublicKey) && peerPublicKeys == old(peerPublicKeys)
      ensures serverKeypair == old(serverKeypair) && clientKeypair == old(clientKeypair)
    {
      var k: PublicKey;
      match key {
        case Pem(bytes) =>
          var parsed := b.loadPemPublic(bytes);
          if parsed.None? {
            return Some(MalformedPublicKey);
          }
          k := parsed.value;
        case Loaded(obj) =>
          k := obj;
      }
      peerPublicKeys := peerPublicKeys[peer := Some(k)];
      err := None;
    }
  }
}
