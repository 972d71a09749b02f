# ArbitraryNetwork relay core in Dafny

This project models the core of ArbitraryNetwork, a small onion-style relay
network written in Python, and proves properties of the model. The core has
four parts.

- **The relay frame** (`frames.dfy`). `pack_packet`/`unpack_packet` use the
  struct format `"!256sHH64s"`. A frame is 324 bytes long:
  - a NUL-padded or truncated 256-byte ASCII address;
  - the port and the packet type, each a big-endian u16;
  - a NUL-padded or truncated 64-byte ASCII message.

  Encoding errors and range errors are raised in the source's order. Unpacking
  a packed frame returns the padded fields, and every 324-byte buffer
  round-trips.
- **The relay** (`relay.dfy`, `circuits.dfy`).
  - `run_server` handles one frame at a time. It unpacks the frame, decodes
    both text fields, names the packet type and echoes the frame upstream.
    Then it acts on the type: CONNECT opens a link or forwards, MESSAGE
    delivers or forwards, DISCONNECT forwards, closes the link and ends the
    session.
  - The relay is modelled as a step function over the `client_active` flag.
    It is lifted to a session (the inner loop, written as the method
    `ServeConnection`) and to the server (the outer loop, `RunServer`).
  - Several relays form a network, a map from address to relay.
  - `run_client`'s five frames are proved to do four things: build the
    circuit hop by hop, deliver the greeting at the last hop only, tear every
    link down, and leave every other relay untouched. This holds for every
    route of four idle relays that meets two conditions:
    - the four relays are pairwise distinct;
    - the second, third and last hops are addressable: an ASCII host of at
      most 256 characters not ending in NUL, and a port that fits in 16
      bits. Otherwise `pack_packet` raises or the address does not survive
      the frame.
- **The key store** (`keys.dfy`, `crypto.dfy`, `peers.dfy`). `KeyStore` is a
  class. It has two key-pair slots and a peer table that the methods update.
  PEM parsing and RSA-OAEP belong to the `cryptography` package and enter the
  model as a `Backend` value. The one property relied on, that OAEP decryption
  inverts encryption, is a precondition (`Sound`) of the lemmas that use it.
- **The client** (`client.dfy`, `messages.dfy`). The `Client` class holds the
  peer list, each peer with its connection slot. It also holds a transcript of
  the socket calls the client makes.
  - Operations modelled:
    - the `"ip:port"` parsing of `load_cfg`;
    - `connect`, with its HELLO/BLOCK handshake;
    - `get_key`, with its ISKEY prefix test and line slicing;
    - the `init_core` loop;
    - `send`, `recv` and `disconnect`.
  - Socket replies and new socket handles are parameters.

`text.dfy` writes out the Python built-ins the core relies on:
- the ASCII and UTF-8 codecs;
- `str.split` and `str.join`;
- slicing with negative bounds;
- `int()` on decimal text.

`wrappers.dfy` holds `Option` and `Result`. A Python exception is a `Failure`
or an error value naming it.

## Model

| member | source | states |
|---|---|---|
| Frames.Value | src/SimpleNode.py:8-11 | `auto()` numbers CONNECT, DISCONNECT, MESSAGE 1, 2, 3; every value lies in 1..3 and maps back to its member |
| Frames.PacketTypeOf | src/SimpleNode.py:98 | `PacketType(v)` succeeds exactly for 1 ≤ v ≤ 3 (ValueError otherwise) |
| Frames.PacketTypeValue | src/SimpleNode.py:8-11 | a value `PacketType` accepts is the value of the member it returns |
| Frames.PadField | src/SimpleNode.py:16 | an `Ns` field has exactly N bytes: the input's bytes where it has them, NUL after |
| Frames.U16BE | src/SimpleNode.py:16 | `!H` writes two bytes that read back as the same number |
| Frames.U16RoundTrip | src/SimpleNode.py:16 | every two bytes are the big-endian encoding of the number they denote |
| Frames.PackFields | src/SimpleNode.py:16 | `pack` succeeds exactly when port and type fit in u16 (struct.error otherwise) and then yields 324 bytes |
| Frames.UnpackPacket | src/SimpleNode.py:48-52 | `unpack` accepts exactly 324-byte buffers and returns a 256-byte address, two u16 numbers and a 64-byte message |
| Frames.PackPacket | src/SimpleNode.py:41-45 | UnicodeEncodeError exactly when the address or message is not ASCII; otherwise struct.error exactly when a number is out of u16 range; otherwise a 324-byte frame |
| Frames.PackUnpack | src/SimpleNode.py:41-52 | unpacking a packed frame returns the padded/truncated fields and both numbers, NULs not stripped |
| Frames.UnpackPack | src/SimpleNode.py:48-52 | every 324-byte buffer is the packing of what it unpacks to |
| Frames.PadText | src/SimpleNode.py:96-97 | a field read back as text is the string cut to the width or padded with NUL characters |
| Frames.TextFieldRoundTrip | src/SimpleNode.py:45 | an ASCII string packed into a field decodes back as its padded form |
| Frames.PackPacketRoundTrip | src/SimpleNode.py:95-97 | what the receiver unpacks and decodes is the sender's port, type and padded address and message |
| Frames.StripTrailingNuls | src/SimpleNode.py:107 | the model's reading of the address handed to `connect` (the source passes the padded field; see "Left out"): a prefix of the field, not ending in NUL, with only NULs dropped |
| Frames.StripPadText | src/SimpleNode.py:107 | under that reading, an address that fits its field and does not end in NUL is the one the relay connects to |
| Relay.Dispatch | src/SimpleNode.py:99-125 | every handled frame is echoed upstream first |
| Relay.DispatchShape | src/SimpleNode.py:99-125 | the echo happens once; the session stays open exactly unless DISCONNECT; a DISCONNECT drops the link and closes upstream last |
| Relay.Step | src/SimpleNode.py:93-99 | struct.error exactly on a buffer that is not 324 bytes, UnicodeDecodeError exactly on a non-ASCII field, ValueError exactly on a type outside 1..3, in that order; otherwise the echo comes first |
| Relay.StepTransitions | src/SimpleNode.py:100-123 | CONNECT leaves a link, MESSAGE keeps the flag, DISCONNECT clears it and ends the session; forwards exactly when linked, opens exactly on CONNECT unlinked (to the frame's own address field and port), delivers exactly on MESSAGE unlinked (the frame's own message field) |
| Relay.LinkAfterAppend | src/SimpleNode.py:88-123 | replaying socket actions over a concatenation is replaying the first part, then the second from where it left off |
| Relay.StepDiscipline | src/SimpleNode.py:100-123 | a frame's actions use the downstream socket legally (open only when unlinked, send/recv/close only when linked) and end at the new flag |
| Relay.Received | src/SimpleNode.py:93 | the k-th `recv` returns the k-th buffer the peer sent, and `b''` once the peer has sent them all |
| Relay.ClosedPeerRaises | src/SimpleNode.py:93-95 | the loop has no test for `b''`: after the peer's last buffer the next pass raises struct.error in `unpack_packet`, linked or not |
| Relay.Session | src/SimpleNode.py:92-125 | a session never consumes more buffers than it was given |
| Relay.SessionContinues | src/SimpleNode.py:92-125 | a frame that keeps the session open is followed by the session over the rest |
| Relay.SessionEnds | src/SimpleNode.py:115-123 | a DISCONNECT ends the session after its own actions |
| Relay.SessionCrashes | src/SimpleNode.py:93-98 | a frame that raises ends the session with nothing done for it |
| Relay.ServeConnection | src/SimpleNode.py:87-125 | the inner `while do_conn` loop, starting unlinked, produces exactly the session log |
| Relay.SessionEchoes | src/SimpleNode.py:99 | the frames echoed upstream are exactly the frames consumed, in order |
| Relay.SessionLinks | src/SimpleNode.py:100-123 | over a whole session the downstream socket is used legally and ends in the logged state |
| Relay.SessionEnding | src/SimpleNode.py:115-123 | a session that ended normally ended on a DISCONNECT with no link and upstream closed last; one that crashed crashed on the next unconsumed buffer |
| Relay.RunServer | src/SimpleNode.py:84-125 | the outer loop serves connections in order from an unlinked state, each as its session; all but the last ended on DISCONNECT, and it stops early only after a crash |
| Circuits.Resolve | src/SimpleNode.py:107 | the model's reading of the address handed to `connect`: the port as given, the host a prefix of the decoded field that does not end in NUL, with only NULs dropped |
| Circuits.Accept | src/SimpleNode.py:88-90 | an accepted connection leaves the relay serving with no downstream link (`client_active = False`) and its deliveries unchanged |
| Circuits.Deliver | src/SimpleNode.py:93-123 | delivering a frame through the network changes no relay's address |
| Circuits.Perform | src/SimpleNode.py:100-123 | carrying out a relay's actions changes no relay's address |
| Circuits.SendAll | src/SimpleNode.py:62-71 | sending a script changes no relay's address |
| Circuits.RunClient | src/SimpleNode.py:55-72 | `run_client` changes no relay's address |
| Circuits.ClientScript | src/SimpleNode.py:62-70 | the client sends exactly five frames |
| Circuits.Extend | src/SimpleNode.py:105-108 | a CONNECT at the end of a circuit lengthens it by the new hop, and only the old last hop and the new hop change |
| Circuits.Teardown | src/SimpleNode.py:115-123 | tearing a circuit down keeps the set of relays |
| Circuits.TeardownShape | src/SimpleNode.py:115-123 | after teardown every hop is unlinked and idle, nothing delivered is lost, and relays off the circuit are untouched |
| Circuits.DeliveredAtEnd | src/SimpleNode.py:109-114 | a MESSAGE at the end of a circuit keeps the circuit, appends the message to the last hop's deliveries and changes nothing else |
| Circuits.ConnectAtEnd | src/SimpleNode.py:105-108 | an unlinked relay receiving CONNECT links to the named idle relay |
| Circuits.ConnectForwards | src/SimpleNode.py:100-104 | a linked relay forwards CONNECT, and the result is the downstream extension |
| Circuits.ConnectExtends | src/SimpleNode.py:100-108 | a CONNECT entering any circuit extends it at its far end by the named relay |
| Circuits.MessageReachesEnd | src/SimpleNode.py:109-114 | a MESSAGE entering any circuit is delivered at its last hop, and only there |
| Circuits.DisconnectAtEnd | src/SimpleNode.py:115-123 | an unlinked relay receiving DISCONNECT closes upstream and goes idle |
| Circuits.PerformCloses | src/SimpleNode.py:120-122 | closing downstream then upstream leaves the relay unlinked and idle |
| Circuits.DisconnectForwards | src/SimpleNode.py:115-123 | a linked relay forwards DISCONNECT, then tears its own hop down |
| Circuits.DisconnectTearsDown | src/SimpleNode.py:115-123 | a DISCONNECT entering any circuit tears down every hop of it |
| Circuits.PackedSend | src/SimpleNode.py:41-45 | a frame the client packs for an addressable hop is a frame of its type naming that hop and carrying the padded message |
| Circuits.SendAllStep | src/SimpleNode.py:62-71 | sending a script is delivering its first frame, then sending the rest |
| Circuits.SendConnect | src/SimpleNode.py:62-67 | a CONNECT line of the script extends the circuit by its target |
| Circuits.SendMessage | src/SimpleNode.py:68-69 | a MESSAGE line of the script is delivered at the end of the circuit |
| Circuits.SendDisconnect | src/SimpleNode.py:70-71 | a DISCONNECT line of the script tears the circuit down |
| Circuits.ChainOfOne | src/SimpleNode.py:61 | a serving, unlinked relay is a circuit of one hop |
| Circuits.Attached | src/SimpleNode.py:61 | the client's connection makes the first hop a one-hop circuit and changes nothing else |
| Circuits.OneHop | src/SimpleNode.py:62-63 | after the first CONNECT the circuit is [a, b] and only a and b changed |
| Circuits.TwoHops | src/SimpleNode.py:64-65 | after the second CONNECT the circuit is [a, b, c] and only those changed |
| Circuits.Connected | src/SimpleNode.py:66-67 | after the third CONNECT the circuit is [a, b, c, dest] and nothing was delivered |
| Circuits.Greeted | src/SimpleNode.py:68-69 | after the MESSAGE the greeting, padded to 64 characters, was delivered at dest and nowhere else |
| Circuits.ClientAttaches | src/SimpleNode.py:60-61 | `run_client` is the script sent from the attached first hop |
| Circuits.ClientFirstConnect | src/SimpleNode.py:62-63 | the first frame moves the network to `OneHop` |
| Circuits.ClientSecondConnect | src/SimpleNode.py:64-65 | the second frame moves the network to `TwoHops` |
| Circuits.ClientThirdConnect | src/SimpleNode.py:66-67 | the third frame moves the network to `Connected` |
| Circuits.ClientGreets | src/SimpleNode.py:68-69 | the fourth frame moves the network to `Greeted` |
| Circuits.ClientDisconnects | src/SimpleNode.py:70-71 | the fifth frame tears the four-hop circuit down and ends the script |
| Circuits.ClientBuildsCircuit | src/SimpleNode.py:60-67 | the three CONNECT frames build the circuit a → b → c → dest |
| Circuits.ClientRunScenario | src/SimpleNode.py:55-125 | on four pairwise distinct idle relays whose second, third and last hops are addressable (an ASCII host of at most 256 characters not ending in NUL, a port in u16), `run_client` succeeds, leaves all four hops unlinked and idle, delivers the greeting at dest only, and leaves every other relay untouched |
| Keys.LoadPair | src/KeyStore.py:32-56 | the load fails exactly when a PEM blob does not parse; the public half is stored first, so a bad private PEM keeps the new public key and the old private key; success stores both |
| Keys.Encrypt | src/KeyStore.py:104-111 | with a sound backend, OAEP-SHA256 encryption succeeds exactly when the plaintext fits the key's capacity |
| Keys.Decrypt | src/KeyStore.py:114-122 | with a sound backend, a ciphertext that OAEP-SHA256 encryption under the key's public half made from `m` decrypts to `m` |
| Keys.DecryptInvertsEncrypt | src/KeyStore.py:104-122 | decrypting with a private key what was encrypted to its public key gives the data back |
| Keys.LoadedPairInverts | src/KeyStore.py:32-122 | a matching pair loaded into a slot encrypts and decrypts every fitting message back to itself |
| Keys.DictStore | src/KeyStore.py:59-73 | a dictionary store succeeds exactly when the key type is hashable, and then is the map update: the key maps to the value and every other entry is unchanged |
| Keys.PeerNodeKeyRejected | src/KeyStore.py:63 | as written, storing under a `PeerNode` raises TypeError |
| Keys.HashedPeerNodeKeyStored | src/KeyStore.py:63 | with a hashable record the store is the map update |
| Keys.KeyStore.constructor | src/KeyStore.py:23-29 | a new store has both pairs unset and an empty peer table |
| Keys.KeyStore.LoadServerKeys | src/KeyStore.py:32-42 | only the server slot changes, as `LoadPair` says |
| Keys.KeyStore.LoadClientKeys | src/KeyStore.py:45-56 | only the client slot changes, as `LoadPair` says |
| Keys.KeyStore.AddPeer | src/KeyStore.py:59-63 | the peer maps to the given key, other entries and both pairs unchanged |
| Keys.KeyStore.SetPeerKey | src/KeyStore.py:66-73 | a loaded key is stored as is; PEM bytes are parsed and stored, or a parse error leaves the table unchanged |
| Peers.NewPeer | src/PeerNode.py:6-15 | a record built from address and port has the declared defaults |
| Peers.WithPublicKey | src/PeerNode.py:14 | assigning `public_key` changes that field only |
| Peers.StructuralEquality | src/PeerNode.py:6-15 | two records are equal exactly when all five fields are |
| Peers.AddressIsNotIdentity | src/PeerNode.py:6-15 | records with the same address but different names are different keys |
| Messages.EncodeInjective | src/Messages.py:5-20 | distinct literals have distinct UTF-8 encodings |
| Messages.UtilityMessages | src/Messages.py:16-17 | NULLSTR is empty and UNKNOWN is "???" |
| Messages.LiteralsDistinct | src/Messages.py:5-20 | the ten literals are pairwise different |
| Messages.MessageAt | src/Messages.py:5-20 | each constant is the UTF-8 encoding of its literal |
| Messages.MessagesDistinct | src/Messages.py:5-20 | the ten named constants are pairwise different |
| Messages.LiteralsAscii | src/Messages.py:5-20 | every literal is ASCII |
| Messages.AsciiPrefix | src/Messages.py:5-20 | an ASCII string's encoding has one byte per character, and encoding commutes with prefixes |
| Messages.IsKeyPrefixUnique | src/Messages.py:5-20 | ISKEY is 5 bytes, and no other constant (of MESSAGES, and of the encoded literals) starts with it |
| Clients.Classify | src/Client.py:68-80 | an unconnected peer is welcomed exactly on HELLO and blocked exactly on BLOCK |
| Clients.ConnectPeer | src/Client.py:68-84 | a connected peer is left alone; otherwise a socket is opened and kept exactly on HELLO, and closed exactly once otherwise; nothing escapes |
| Clients.IsKeyReplyPrefix | src/Client.py:98 | `response[:5].encode() == MSG_ISKEY` holds exactly for text starting with "ISKEY" |
| Clients.KeyBody | src/Client.py:99 | the stored key text holds no newline, and is empty for a reply of fewer than four lines |
| Clients.KeyBodyOfReply | src/Client.py:99 | a header, body lines and two trailing pieces yield the body lines joined |
| Clients.GetKeyPeer | src/Client.py:87-102 | GETKEY is sent on the peer's connection; a non-UTF-8 reply raises; an ISKEY reply sets the key only; any other reply changes nothing; no connection raises before sending |
| Clients.DenyKeepsKey | src/Client.py:94-95 | a DENY reply changes nothing |
| Clients.IsKeyStoresBody | src/Client.py:97-99 | a reply starting with "ISKEY" stores its body as the key, other fields unchanged |
| Clients.CountConnected | src/Client.py:52-57 | at most every peer is connected |
| Clients.InitPeer | src/Client.py:53-57 | one pass connects the peer and, exactly when that left it connected, sends GETKEY |
| Clients.InitUpTo | src/Client.py:52-57 | after n passes only the first n peers changed and at most n are counted |
| Clients.InitUpToStep | src/Client.py:53-57 | each pass extends the run by one peer's step |
| Clients.InitUpToCount | src/Client.py:52-57 | the counter equals the number of connected peers among those visited |
| Clients.InitUpToPeers | src/Client.py:53-57 | every visited peer is what its own pass made it |
| Clients.InitStops | src/Client.py:53-57 | once a pass raises, later peers are not visited |
| Clients.FirstMatch | src/Client.py:133-136 | the first peer at the address in list order, or none at all |
| Clients.GuardNeverFires | src/Client.py:131 | `data == str` is false for every byte string and every string |
| Clients.OutgoingAsWritten | src/Client.py:131-132 | when the guard does not fire, the payload reaches the socket unchanged |
| Clients.NeverReencodes | src/Client.py:130-135 | as written, `send` never re-encodes: every payload is handed to the socket as given |
| Clients.TextReachesSocket | src/Client.py:131-132 | as written, a `str` payload reaches `socket.send` unencoded |
| Clients.Outgoing | src/Client.py:130-132 | bytes go out unchanged; a string goes out as UTF-8 that decodes back to it |
| Clients.ConnsAtComplete | src/Client.py:114-116 | every connected peer at the address is among those closed |
| Clients.Closes | src/Client.py:116 | one close per connection, in order |
| Clients.CloseUpTo | src/Client.py:113-119 | the loop stops exactly when it meets an unconnected peer at the address; otherwise it has closed every connection at the address |
| Clients.StoppedAtFirstGap | src/Client.py:113-119 | when it stops, it stops at the first unconnected peer at the address, having closed exactly the connections at the address before that peer |
| Clients.CloseStops | src/Client.py:118-119 | after the caught exception no further peer is closed |
| Clients.ParseContact | src/Client.py:43-44 | an entry parses exactly when it has one colon and a decimal port; the address has no colon and the entry is address, colon, port |
| Clients.ContactRoundTrip | src/Client.py:43-44 | an address without a colon and a decimal port parse back to themselves |
| Clients.ParsedPrefix | src/Client.py:41-45 | the entries before the first bad one all parse; the loop raises at the first one that does not |
| Clients.CorePeer | src/Client.py:45 | each entry becomes an unconnected core peer with its name, address and port and no key |
| Clients.CorePeers | src/Client.py:41-45 | the appended peers correspond one-to-one, in order, to the entries |
| Clients.Client.constructor | src/Client.py:22 | a new client has no peers and has made no socket calls |
| Clients.Client.LoadCores | src/Client.py:41-45 | peers parsed before the first bad entry are appended in order; success exactly when all parse |
| Clients.Client.Connect | src/Client.py:61-84 | the peer at the index becomes what `ConnectPeer` says and the socket calls are appended |
| Clients.Client.GetKey | src/Client.py:87-102 | the peer at the index becomes what `GetKeyPeer` says and the socket calls are appended |
| Clients.Client.InitPass | src/Client.py:54-57 | one iteration: connect, then get_key exactly when connected |
| Clients.Client.InitCore | src/Client.py:48-58 | the loop's peers, socket calls and result are those of the run over all peers; on success the count is the number of connected peers, at most the number of peers |
| Clients.Client.Send | src/Client.py:122-136 | as written: the first peer at the address is used and no such peer sends nothing; an unconnected one raises; bytes go out unchanged, while a string is handed to `socket.send` unencoded and raises TypeError; peers unchanged |
| Clients.Client.Recv | src/Client.py:139-151 | the answer of the first peer at the address, empty bytes when there is none, an error when it is unconnected |
| Clients.Client.Disconnect | src/Client.py:106-119 | peers at the address are closed in order until an unconnected one stops the loop; connections are not cleared |
| Text.EncodeAscii | src/SimpleNode.py:45 | `encode("ascii")` succeeds exactly on ASCII text, byte for character |
| Text.DecodeAscii | src/SimpleNode.py:96-97 | `decode("ascii")` succeeds exactly on bytes below 0x80, character for byte |
| Text.AsciiRoundTrip | src/SimpleNode.py:45 | decoding what was ASCII-encoded gives the text back |
| Text.AsciiBytesRoundTrip | src/SimpleNode.py:96-97 | encoding what was ASCII-decoded gives the bytes back |
| Text.Utf8OfAscii | src/Messages.py:5-20 | on ASCII text the UTF-8 and ASCII encodings agree |
| Text.EncodeUtf8 | src/Messages.py:5-20 | `encode("utf-8")` takes one to four bytes per character |
| Text.DecodeUtf8 | src/Client.py:97-98 | a successful `decode("utf-8")` gives at most one character per byte; `Utf8RoundTrip` and `Utf8BytesRoundTrip` make it the inverse of `EncodeUtf8` |
| Text.PySlice | src/Client.py:98-99 | a slice is never longer than the sequence; in-range bounds give the ordinary slice, and a negative stop counts from the end (so `[1:-2]` drops the first and the last two pieces) |
| Text.Utf8RoundTrip | src/Client.py:97 | decoding what was UTF-8-encoded gives the text back |
| Text.Utf8BytesRoundTrip | src/Client.py:97 | the strict decoder accepts only canonical encodings: re-encoding gives the bytes back |
| Text.Split | src/Client.py:43 | `str.split` gives at least one piece, no piece holds the separator, and joining restores the text |
| Text.SplitJoin | src/Client.py:99 | splitting a join of separator-free pieces gives the pieces back |
| Text.ConcatFree | src/Client.py:99 | joining pieces free of a character gives text free of it |
| Text.ParseInt | src/Client.py:44 | `int()` refuses the empty string and any other character than a sign and digits, reads a digit string as its decimal value, and is negative only after a leading `-` |
| Text.ParseFormat | src/Client.py:44 | `int()` reads back any number written in decimal |

## Left out

- Sockets. Connecting, accepting, binding and listening are replaced by parameters: the buffers a connection delivers, the reply a socket gives, and the handle a new socket gets. What the code does with them is recorded as relay `Action`s or client `Event`s.
- TCP framing. `recv(1024)` is taken to return one whole frame, or nothing once the peer has closed.
- Relay console output (`print`).
- Circuits.Deliver: the address a relay connects to is the decoded field with its NUL padding removed (`Resolve`). The source hands the padded string to `connect`, and what the socket layer makes of it is not modelled.
- Circuits.Deliver: a relay already serving a connection does not read a second one. A frame sent to it is reported as `Busy`, not as a wait.
- Circuits.Deliver: the relays are composed synchronously. In the source each relay is a separate process, and an upstream relay waits for the echo while the downstream relay is still acting on the frame. The model finishes the downstream relay's actions before the upstream one continues.
- Circuits.SendAll: frames after a DISCONNECT are still delivered to the entry relay, although that relay has closed the client's connection. `run_client` sends its DISCONNECT last, so its script is unaffected.
- Cycles. A frame forwarded into a relay that is waiting upstream of itself is reported as `Cycle`; the deadlock is not modelled.
- `load_cfg` of src/SimpleNode.py reads the route from a JSON file. The route's four addresses are parameters of `RunClient`, and file I/O is not modelled.
- `create_argv` and the `__main__` blocks.
- Keys.KeyStore: `KeyPair` is held as a value that the store replaces, not as a shared mutable object. Nothing else holds a reference to a store's pairs.
- Keys.KeyStore: reading the PEM files is I/O; the methods take the file contents.
- `gen_keys` (key generation and file writes) and `print_peer_keystore` (console output) are not modelled.
- Keys.Encrypt: the randomness of OAEP is a `seed` parameter. The `cryptography` package itself is a `Backend` value; its promises are the precondition `Sound`, not axioms.
- Clients.Client: src/PeerNode.py declares no `conn` field, so `peer.conn` on a real `PeerNode` raises AttributeError. The model gives each peer the connection slot the client code reads and writes.
- Clients.Client: the `Client` constructor is not modelled as written. It reads `Configuration`, which src/Client.py never imports, and `KeyStore(...)` is called with two arguments that `KeyStore.__init__` does not take. The model starts from an empty client, and `LoadCores` is the `cores` loop of `load_cfg`.
- The `connections` dictionary and the reroute timeouts are assigned in the constructor and never used.
- `console_mode` is an interactive loop on `input()`.
- Clients.ParseContact: `int()` is modelled on an optionally signed run of ASCII digits. Python also accepts surrounding whitespace, underscores and non-ASCII decimal digits; these are not modelled.
- Clients.Client.Send: an unconnected peer is reported as `NotConnected`. In the source it is the AttributeError of `None.send`. A string payload is reported as `NotBytes`, which stands for the TypeError `socket.send` raises for a `str`.
- Clients.Client.Recv: an unconnected peer is reported as `NotConnected`. In the source it is the AttributeError of `None.recv`. Other socket errors are not modelled.
- Clients.GetKeyPeer: stores the key text unparsed, as the source does. Turning it into a key object is not part of the source.
- src/Node.py, src/Server.py, src/AdHocNetwork.py, src/Configuration.py and tools/GenerateConfigs.py are not part of this model.
- Python strings holding lone surrogates have no counterpart, because a Dafny `char` is a Unicode scalar value.

## Findings

| source | as written | input that shows it | evidently intended | confidence | as-written member | corrected member |
|---|---|---|---|---|---|---|
| src/PeerNode.py:6-15, src/KeyStore.py:63 | `@dataclass` with default `eq=True` and neither `frozen` nor `unsafe_hash` sets `__hash__` to None. `peer_public_keys[peer] = key` then raises TypeError | any `add_peer(PeerNode("10.0.0.1", 7877), None)` | the peer table maps each record to its key | not executed | Keys.PeerNodeKeyRejected | Keys.HashedPeerNodeKeyStored |
| src/Client.py:131-132 | the guard compares the argument with the type `str` and is never true, so a string is handed to `socket.send` unencoded (TypeError) | `send("10.0.0.1", "hi")` | a string payload is sent as its UTF-8 encoding | not executed | Clients.TextReachesSocket | Clients.Outgoing |
