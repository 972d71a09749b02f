/**
  The peer record of src/PeerNode.py.  The source declares it a `@dataclass`,
  so equality compares all five fields.  `port` is annotated `str` there but
  every caller stores an `int`, which is what the model holds.
*/
module Peers {
  import opened Wrappers
  import opened Crypto

  /**
    What the `public_key` field holds: a key object (the annotation), or the
    text that Client.get_key stores there.
  */
  datatype PeerKey = KeyObject(key: PublicKey) | KeyText(text: string)

  datatype PeerNode = PeerNode(
    ip: string,
    port: int,
    name: string := "UNDEFINED",
    publicKey: Option<PeerKey> := None,
    isCore: bool := false)

  /** `PeerNode(ip, port)`: only the address is required; the other fields take their defaults. */
  function NewPeer(ip: string, port: int): (p: PeerNode)
    ensures p.ip == ip && p.port == port
    ensures p.name == "UNDEFINED" && p.publicKey == None && !p.isCore
  {
    PeerNode(ip, port)
  }

  /** `peer.public_key = key`: the record with that one field replaced. */
  function WithPublicKey(p: PeerNode, key: Option<PeerKey>): (q: PeerNode)
    ensures q.publicKey == key
    ensures q.ip == p.ip && q.port == p.port && q.name == p.name && q.isCore == p.isCore
  {
    p.(publicKey := key)
  }

  /** Dataclass equality: two records are equal exactly when all five fields are. */
  lemma StructuralEquality(p: PeerNode, q: PeerNode)
    ensures p == q <==>
      p.ip == q.ip && p.port == q.port && p.name == q.name && p.publicKey == q.publicKey && p.isCore == q.isCore
  {
  }

  /** Equal addresses do not make equal records: a different name is enough to tell them apart. */
  lemma AddressIsNotIdentity(ip: string, port: int, name: string)
    requires name != "UNDEFINED"
    ensures NewPeer(ip, port) != PeerNode(ip, port, name)
  {
  }

  /** The `@dataclass` options that decide whether instances can be dictionary keys. */
  datatype DataclassOptions = DataclassOptions(eq: bool, frozen: bool, unsafeHash: bool)

  /** `@dataclass` with no arguments, as the record is declared. */
  const PEER_NODE_OPTIONS: DataclassOptions := DataclassOptions(eq := true, frozen := false, unsafeHash := false)

  /** `@dataclass(unsafe_hash=True)`: hashed by its fields, which stay assignable. */
  const HASHED_PEER_NODE_OPTIONS: DataclassOptions := DataclassOptions(eq := true, frozen := false, unsafeHash := true)

  /**
    Python's rule: a dataclass that defines equality but is neither frozen
    nor asked for `unsafe_hash` gets `__hash__ = None`.
  */
  predicate Hashable(o: DataclassOptions) {
    o.unsafeHash || o.frozen || !o.eq
  }
}
