/**
  The client of src/Client.py, from an abstract state: the list of peer
  records, each with the connection the source attaches to it, and the
  transcript of socket calls the client has made.  Sockets are not
  modelled: the replies a peer would send, and the handle a new socket
  gets, are parameters.
*/
module Clients {
  import opened Wrappers
  import opened Text
  import opened Messages
  import opened Peers

  /** A socket the client has opened. */
  type Handle = nat

  /** A peer record together with its connection, `None` until `connect` succeeds. */
  datatype Peer = Peer(node: PeerNode, conn: Option<Handle>)

  /** The socket calls the client makes, in the order it makes them. */
  datatype Event =
    | Opened(sock: Handle, ip: string, port: int)
    | Sent(sock: Handle, data: seq<byte>)
    | Closed(sock: Handle)

  /**
    The exceptions that escape: using a peer whose `conn` is None, a reply
    that is not UTF-8, and the TypeError `socket.send` raises when handed a
    `str` instead of bytes.
  */
  datatype ClientError = NotConnected | NotUtf8 | NotBytes

  /** One call on one peer: the updated record, the socket calls made, and the exception raised, if any. */
  datatype Step = Step(peer: Peer, events: seq<Event>, error: Option<ClientError>)

  // ---------------------------------------------------------------------------
  // connect

  /** How `connect` treats a peer and the first reply of the new socket. */
  datatype ConnectOutcome = AlreadyConnected | Welcomed | Blocked | Refused

  /**
    The reply classification: HELLO connects, BLOCK is a refusal the peer
    announced, and anything else (including a socket that could not connect
    or read, shown as `None`) is the error path.
  */
  function Classify(p: Peer, attempt: Option<seq<byte>>): (o: ConnectOutcome)
    ensures o == AlreadyConnected <==> p.conn.Some?
    ensures o == Welcomed <==> p.conn.None? && attempt == Some(HELLO)
    ensures o == Blocked <==> p.conn.None? && attempt == Some(BLOCK)
  {
    EncodeInjective("HELLO", "BLOCK");
    if p.conn.Some? then AlreadyConnected
    else if attempt == Some(HELLO) then Welcomed
    else if attempt == Some(BLOCK) then Blocked
    else Refused
  }

  /**
    `connect(peer)`: nothing happens to a connected peer.  Otherwise a socket
    is opened to the peer's address; it becomes the peer's connection on
    HELLO, and on every other outcome it is closed, exactly once, and the
    peer stays unconnected.  No exception escapes.
  */
  function ConnectPeer(p: Peer, attempt: Option<seq<byte>>, newSock: Handle): (r: Step)
    ensures r.error == None && r.peer.node == p.node
    ensures p.conn.Some? ==> r.peer == p && r.events == []
    ensures p.conn.None? ==> (r.peer.conn.Some? <==> attempt == Some(HELLO))
    ensures p.conn.None? && r.peer.conn.Some? ==> r.peer.conn == Some(newSock)
    ensures p.conn.None? ==>
              r.events == [Opened(newSock, p.node.ip, p.node.port)] + (if r.peer.conn.Some? then [] else [Closed(newSock)])
  {
    match Classify(p, attempt)
    case AlreadyConnected => Step(p, [], None)
    case Welcomed => Step(p.(conn := Some(newSock)), [Opened(newSock, p.node.ip, p.node.port)], None)
    case _ => Step(p, [Opened(newSock, p.node.ip, p.node.port), Closed(newSock)], None)
  }

  // ---------------------------------------------------------------------------
  // get_key

  /** The prefix test: the first five characters of the decoded reply, encoded, equal ISKEY. */
  predicate IsKeyReply(text: string) {
    EncodeUtf8(PySlice(text, 0, 5)) == ISKEY
  }

  /** The prefix test accepts exactly the texts that start with "ISKEY". */
  lemma IsKeyReplyPrefix(text: string)
    ensures IsKeyReply(text) <==> |text| >= 5 && text[..5] == "ISKEY"
  {
    var head := PySlice(text, 0, 5);
    assert head == text[..if |text| < 5 then |text| else 5];
    if head != "ISKEY" {
      EncodeInjective(head, "ISKEY");
    }
  }

  /**
    The stored key text: the reply split on newlines, without its first
    piece and its last two, joined with nothing between.
  */
  function KeyBody(text: string): (r: string)
    ensures '\n' !in r
    ensures |Split(text, '\n')| < 4 ==> r == []
  {
    var lines := Split(text, '\n');
    var kept := PySlice(lines, 1, -2);
    assert forall j :: 0 <= j < |kept| ==> kept[j] in lines;
    ConcatFree(kept, '\n');
    Concat(kept)
  }

  lemma LinesFree(header: string, body: seq<string>, last: string, final: string)
    requires '\n' !in header && '\n' !in last && '\n' !in final
    requires forall j :: 0 <= j < |body| ==> '\n' !in body[j]
    ensures var lines := [header] + body + [last, final];
            forall j :: 0 <= j < |lines| ==> '\n' !in lines[j]
  {
    var lines := [header] + body + [last, final];
    forall j | 0 <= j < |lines| ensures '\n' !in lines[j] {
      if j == 0 {
        assert lines[j] == header;
      } else if j <= |body| {
        assert lines[j] == body[j - 1];
      } else if j == |body| + 1 {
        assert lines[j] == last;
      } else {
        assert lines[j] == final;
      }
    }
  }

  lemma SliceMiddle<T>(header: T, body: seq<T>, last: T, final: T)
    ensures PySlice([header] + body + [last, final], 1, -2) == body
  {
    var lines := [header] + body + [last, final];
    assert lines[1..|body| + 1] == body;
  }

  /** A reply made of a header line, body lines and two trailing pieces yields the body lines run together. */
  lemma KeyBodyOfReply(header: string, body: seq<string>, last: string, final: string)
    requires '\n' !in header && '\n' !in last && '\n' !in final
    requires forall j :: 0 <= j < |body| ==> '\n' !in body[j]
    ensures KeyBody(JoinWith([header] + body + [last, final], '\n')) == Concat(body)
  {
    var lines := [header] + body + [last, final];
    LinesFree(header, body, last, final);
    SplitJoin(lines, '\n');
    SliceMiddle(header, body, last, final);
  }

  /**
    `get_key(peer)`: GETKEY goes out on the peer's connection; a reply that
    is not UTF-8 raises; a reply passing the ISKEY test sets the peer's key
    to the extracted text, and any other reply (DENY included) leaves the
    record as it was.  A peer without a connection raises before sending.
  */
  function GetKeyPeer(p: Peer, reply: seq<byte>): (r: Step)
    ensures p.conn.None? ==> r == Step(p, [], Some(NotConnected))
    ensures p.conn.Some? ==> r.events == [Sent(p.conn.value, GETKEY)]
    ensures r.error == Some(NotUtf8) <==> p.conn.Some? && DecodeUtf8(reply).None?
    ensures r.error.None? && IsKeyReply(DecodeUtf8(reply).value) ==>
              r.peer == Peer(WithPublicKey(p.node, Some(KeyText(KeyBody(DecodeUtf8(reply).value)))), p.conn)
    ensures r.error.Some? || !IsKeyReply(DecodeUtf8(reply).value) ==> r.peer == p
  {
    match p.conn
    case None => Step(p, [], Some(NotConnected))
    case Some(h) =>
      var sent := [Sent(h, GETKEY)];
      match DecodeUtf8(reply)
      case None => Step(p, sent, Some(NotUtf8))
      case Some(text) =>
        if IsKeyReply(text) then Step(Peer(WithPublicKey(p.node, Some(KeyText(KeyBody(text)))), p.conn), sent, None)
        else Step(p, sent, None)
  }

  /** A DENY reply changes nothing. */
  lemma DenyKeepsKey(p: Peer)
    requires p.conn.Some?
    ensures GetKeyPeer(p, DENY) == Step(p, [Sent(p.conn.value, GETKEY)], None)
  {
    Utf8RoundTrip("DENY");
    IsKeyReplyPrefix("DENY");
  }

  /** A UTF-8 reply that starts with "ISKEY" stores the extracted body, and only the key field changes. */
  lemma IsKeyStoresBody(p: Peer, text: string)
    requires p.conn.Some?
    requires |text| >= 5 && text[..5] == "ISKEY"
    ensures var r := GetKeyPeer(p, EncodeUtf8(text));
            && r.error == None
            && r.peer.node.publicKey == Some(KeyText(KeyBody(text)))
            && r.peer.conn == p.conn && r.peer.node == WithPublicKey(p.node, r.peer.node.publicKey)
  {
    Utf8RoundTrip(text);
    IsKeyReplyPrefix(text);
  }

  // ---------------------------------------------------------------------------
  // init_core

  /** How many of the peers hold a connection. */
  function CountConnected(ps: seq<Peer>): (n: nat)
    ensures n <= |ps|
  {
    if ps == [] then 0 else CountConnected(ps[..|ps| - 1]) + (if ps[|ps| - 1].conn.Some? then 1 else 0)
  }

  /** One pass of the `init_core` loop: connect, and ask for the key only if the peer is now connected. */
  function InitPeer(p: Peer, attempt: Option<seq<byte>>, newSock: Handle, reply: seq<byte>): (r: Step)
    ensures r.peer.conn == ConnectPeer(p, attempt, newSock).peer.conn
    ensures r.peer.conn.None? ==> r == ConnectPeer(p, attempt, newSock)
    ensures r.peer.conn.Some? ==> r.events == ConnectPeer(p, attempt, newSock).events + [Sent(r.peer.conn.value, GETKEY)]
  {
    var c := ConnectPeer(p, attempt, newSock);
    if c.peer.conn.None? then c
    else
      var g := GetKeyPeer(c.peer, reply);
      Step(g.peer, c.events + g.events, g.error)
  }

  /** The state after the first `n` passes of `init_core`, or at the exception that ended it. */
  datatype InitRun = InitRun(peers: seq<Peer>, events: seq<Event>, connected: nat, error: Option<ClientError>)

  predicate InitArgs(ps: seq<Peer>, attempts: seq<Option<seq<byte>>>, sockets: seq<Handle>, replies: seq<seq<byte>>) {
    |attempts| == |ps| && |sockets| == |ps| && |replies| == |ps|
  }

  function InitUpTo(ps: seq<Peer>, attempts: seq<Option<seq<byte>>>, sockets: seq<Handle>, replies: seq<seq<byte>>, n: nat): (r: InitRun)
    requires InitArgs(ps, attempts, sockets, replies) && n <= |ps|
    ensures |r.peers| == |ps| && r.peers[n..] == ps[n..]
    ensures r.connected <= n
  {
    if n == 0 then InitRun(ps, [], 0, None)
    else
      var prev := InitUpTo(ps, attempts, sockets, replies, n - 1);
      if prev.error.Some? then prev
      else
        var s := InitPeer(ps[n - 1], attempts[n - 1], sockets[n - 1], replies[n - 1]);
        var peers := prev.peers[n - 1 := s.peer];
        InitRun(peers, prev.events + s.events, prev.connected + (if s.peer.conn.Some? then 1 else 0), s.error)
  }

  lemma InitUpToStep(ps: seq<Peer>, attempts: seq<Option<seq<byte>>>, sockets: seq<Handle>, replies: seq<seq<byte>>, k: nat)
    requires InitArgs(ps, attempts, sockets, replies) && k < |ps|
    requires InitUpTo(ps, attempts, sockets, replies, k).error.None?
    ensures var prev := InitUpTo(ps, attempts, sockets, replies, k);
            var s := InitPeer(ps[k], attempts[k], sockets[k], replies[k]);
            InitUpTo(ps, attempts, sockets, replies, k + 1)
              == InitRun(prev.peers[k := s.peer], prev.events + s.events, prev.connected + (if s.peer.conn.Some? then 1 else 0), s.error)
  {
  }

  /** The counter of a run that did not raise is the number of connected peers among those visited. */
  lemma {:induction false} InitUpToCount(ps: seq<Peer>, attempts: seq<Option<seq<byte>>>, sockets: seq<Handle>, replies: seq<seq<byte>>, n: nat)
    requires InitArgs(ps, attempts, sockets, replies) && n <= |ps|
    requires InitUpTo(ps, attempts, sockets, replies, n).error.None?
    ensures var r := InitUpTo(ps, attempts, sockets, replies, n);
            r.connected == CountConnected(r.peers[..n])
  {
    if n > 0 {
      var k := n - 1;
      var prev := InitUpTo(ps, attempts, sockets, replies, k);
      var r := InitUpTo(ps, attempts, sockets, replies, n);
      assert prev.error.None?;
      InitUpToCount(ps, attempts, sockets, replies, k);
      InitUpToStep(ps, attempts, sockets, replies, k);
      assert r.peers[..n][..k] == prev.peers[..k];
    }
  }

  /** A run that did not raise has connected each peer and, where that succeeded, asked it for its key. */
  lemma {:induction false} InitUpToPeers(ps: seq<Peer>, attempts: seq<Option<seq<byte>>>, sockets: seq<Handle>, replies: seq<seq<byte>>, n: nat)
    requires InitArgs(ps, attempts, sockets, replies) && n <= |ps|
    requires InitUpTo(ps, attempts, sockets, replies, n).error.None?
    ensures forall j :: 0 <= j < n ==>
              InitUpTo(ps, attempts, sockets, replies, n).peers[j] == InitPeer(ps[j], attempts[j], sockets[j], replies[j]).peer
  {
    if n > 0 {
      var k := n - 1;
      var prev := InitUpTo(ps, attempts, sockets, replies, k);
      var r := InitUpTo(ps, attempts, sockets, replies, n);
      assert prev.error.None?;
      InitUpToPeers(ps, attempts, sockets, replies, k);
      InitUpToStep(ps, attempts, sockets, replies, k);
      forall j | 0 <= j < n
        ensures r.peers[j] == InitPeer(ps[j], attempts[j], sockets[j], replies[j]).peer
      {
        if j < k {
          assert r.peers[j] == prev.peers[j];
        }
      }
    }
  }

  lemma AppendAssoc<T>(a: seq<T>, b: seq<T>, c: seq<T>)
    ensures a + b + c == a + (b + c)
  {
  }

  /** Once a pass has raised, later passes never run. */
  lemma {:induction false} InitStops(ps: seq<Peer>, attempts: seq<Option<seq<byte>>>, sockets: seq<Handle>, replies: seq<seq<byte>>, k: nat, n: nat)
    requires InitArgs(ps, attempts, sockets, replies) && k <= n <= |ps|
    requires InitUpTo(ps, attempts, sockets, replies, k).error.Some?
    ensures InitUpTo(ps, attempts, sockets, replies, n) == InitUpTo(ps, attempts, sockets, replies, k)
    decreases n
  {
    if n > k {
      InitStops(ps, attempts, sockets, replies, k, n - 1);
    }
  }

  // ---------------------------------------------------------------------------
  // send, recv and disconnect select peers by address

  /** The first peer in list order whose address is `ip`. */
  function FirstMatch(ps: seq<Peer>, ip: string): (r: Option<nat>)
    ensures r.Some? ==> r.value < |ps| && ps[r.value].node.ip == ip
    ensures r.Some? ==> forall j :: 0 <= j < r.value ==> ps[j].node.ip != ip
    ensures r.None? ==> forall j :: 0 <= j < |ps| ==> ps[j].node.ip != ip
  {
    if ps == [] then None
    else if ps[0].node.ip == ip then Some(0)
    else
      match FirstMatch(ps[1..], ip)
      case None => None
      case Some(j) => Some(j + 1)
  }

  /** What `send` may be given. */
  datatype Payload = Bytes(bytes: seq<byte>) | Text(text: string)

  /** The Python values the guard's `==` compares: a payload, or the type object `str` itself. */
  datatype PyValue = PayloadValue(payload: Payload) | StrType

  /** The guard as written: `data == str`, the argument compared with the type object. */
  predicate GuardAsWritten(data: Payload) {
    PayloadValue(data) == StrType
  }

  /** No payload, byte string or string, equals the type object `str`. */
  lemma GuardNeverFires(data: Payload)
    ensures !GuardAsWritten(data)
  {
  }

  /** The payload `send` hands to the socket, as written: re-encoded only if the guard fires. */
  function OutgoingAsWritten(data: Payload): (r: Payload)
    ensures !GuardAsWritten(data) ==> r == data
  {
    if GuardAsWritten(data) then Bytes(Outgoing(data)) else data
  }

  /** As written, `send` never re-encodes: every payload reaches the socket as it was given. */
  lemma NeverReencodes(data: Payload)
    ensures OutgoingAsWritten(data) == data
  {
    GuardNeverFires(data);
  }

  /** As written, a string reaches the socket unencoded, where `socket.send` raises TypeError. */
  lemma TextReachesSocket(s: string)
    ensures OutgoingAsWritten(Text(s)) == Text(s)
  {
    NeverReencodes(Text(s));
  }

  /** The intended safeguard: a string is sent as its UTF-8 encoding, which decodes back to it. */
  function Outgoing(data: Payload): (r: seq<byte>)
    ensures data.Bytes? ==> r == data.bytes
    ensures data.Text? ==> DecodeUtf8(r) == Some(data.text)
  {
    match data
    case Bytes(b) => b
    case Text(s) => Utf8RoundTrip(s); EncodeUtf8(s)
  }

  /** The connections of the peers at `ip`, in list order. */
  function ConnsAt(ps: seq<Peer>, ip: string): seq<Handle> {
    if ps == [] then []
    else
      var p := ps[|ps| - 1];
      ConnsAt(ps[..|ps| - 1], ip) + (if p.node.ip == ip && p.conn.Some? then [p.conn.value] else [])
  }

  /** Every connected peer at `ip` contributes its connection. */
  lemma {:induction false} ConnsAtComplete(ps: seq<Peer>, ip: string, j: nat)
    requires j < |ps| && ps[j].node.ip == ip && ps[j].conn.Some?
    ensures ps[j].conn.value in ConnsAt(ps, ip)
  {
    if j < |ps| - 1 {
      ConnsAtComplete(ps[..|ps| - 1], ip, j);
    }
  }

  function Closes(hs: seq<Handle>): (r: seq<Event>)
    ensures |r| == |hs| && forall j :: 0 <= j < |hs| ==> r[j] == Closed(hs[j])
  {
    if hs == [] then [] else Closes(hs[..|hs| - 1]) + [Closed(hs[|hs| - 1])]
  }

  /** The sockets `disconnect` has closed after `n` peers, and whether it stopped at an unconnected one. */
  datatype CloseRun = CloseRun(closed: seq<Handle>, stopped: bool)

  function CloseUpTo(ps: seq<Peer>, ip: string, n: nat): (r: CloseRun)
    requires n <= |ps|
    ensures r.stopped <==> exists j :: 0 <= j < n && ps[j].node.ip == ip && ps[j].conn.None?
    ensures !r.stopped ==> r.closed == ConnsAt(ps[..n], ip)
  {
    if n == 0 then CloseRun([], false)
    else
      var prev := CloseUpTo(ps, ip, n - 1);
      assert ps[..n][..n - 1] == ps[..n - 1];
      if prev.stopped || ps[n - 1].node.ip != ip then prev
      else if ps[n - 1].conn.None? then CloseRun(prev.closed, true)
      else CloseRun(prev.closed + [ps[n - 1].conn.value], false)
  }

  /**
    When `j` is the first peer at `ip` without a connection, the loop stops
    there, having closed exactly the connections at `ip` that come before it.
  */
  lemma StoppedAtFirstGap(ps: seq<Peer>, ip: string, n: nat, j: nat)
    requires j < n <= |ps| && ps[j].node.ip == ip && ps[j].conn.None?
    requires forall i :: 0 <= i < j && ps[i].node.ip == ip ==> ps[i].conn.Some?
    ensures CloseUpTo(ps, ip, n) == CloseRun(ConnsAt(ps[..j], ip), true)
  {
    assert !CloseUpTo(ps, ip, j).stopped;
    CloseStops(ps, ip, j + 1, n);
  }

  /** Once `disconnect` has hit an unconnected peer, the rest of the list is skipped. */
  lemma {:induction false} CloseStops(ps: seq<Peer>, ip: string, k: nat, n: nat)
    requires k <= n <= |ps| && CloseUpTo(ps, ip, k).stopped
    ensures CloseUpTo(ps, ip, n) == CloseUpTo(ps, ip, k)
    decreases n
  {
    if n > k {
      CloseStops(ps, ip, k, n - 1);
    }
  }

  // ---------------------------------------------------------------------------
  // load_cfg: the core entries

  /** A parsed "ip:port" entry. */
  datatype Contact = Contact(ip: string, port: int)

  /**
    `ip, port = contact.split(':')` then `int(port)`: the entry must have
    exactly one colon and a decimal port; `None` stands for the ValueError.
  */
  function ParseContact(contact: string): (r: Option<Contact>)
    ensures var parts := Split(contact, ':');
            r.Some? <==> |parts| == 2 && ParseInt(parts[1]).Some?
    ensures r.Some? ==> ':' !in r.value.ip && Some(r.value.port) == ParseInt(Split(contact, ':')[1])
    ensures r.Some? ==> contact == r.value.ip + [':'] + Split(contact, ':')[1]
  {
    var parts := Split(contact, ':');
    if |parts| != 2 then None
    else
      match ParseInt(parts[1])
      case None => None
      case Some(port) =>
        assert JoinWith(parts, ':') == parts[0] + [':'] + JoinWith(parts[1..], ':');
        Some(Contact(parts[0], port))
  }

  /** An address without a colon and a port written in decimal parse back to themselves. */
  lemma ContactRoundTrip(ip: string, port: nat)
    requires ':' !in ip
    ensures ParseContact(ip + [':'] + FormatNat(port)) == Some(Contact(ip, port))
  {
    var digits := FormatNat(port);
    assert ':' !in digits by {
      forall j | 0 <= j < |digits| ensures digits[j] != ':' {
        assert IsDigit(digits[j]);
      }
    }
    var parts := [ip, digits];
    SplitJoin(parts, ':');
    assert JoinWith(parts, ':') == ip + [':'] + digits;
    ParseFormat(port);
  }

  /** The number of leading entries that parse: the loop raises at the first one that does not. */
  function ParsedPrefix(entries: seq<(string, string)>): (n: nat)
    ensures n <= |entries|
    ensures forall j :: 0 <= j < n ==> ParseContact(entries[j].1).Some?
    ensures n < |entries| ==> ParseContact(entries[n].1).None?
  {
    if entries == [] || ParseContact(entries[0].1).None? then 0
    else ParsedPrefix(entries[1..]) + 1
  }

  /** The core peer an entry (name, "ip:port") describes: a core, unconnected, with the other fields defaulted. */
  function CorePeer(name: string, c: Contact): (p: Peer)
    ensures p.conn == None && p.node.isCore && p.node.publicKey == None
    ensures p.node.name == name && p.node.ip == c.ip && p.node.port == c.port
  {
    Peer(PeerNode(c.ip, c.port, name, None, true), None)
  }

  /** The peers appended for entries that all parse, in entry order. */
  function CorePeers(entries: seq<(string, string)>): (r: seq<Peer>)
    requires forall j :: 0 <= j < |entries| ==> ParseContact(entries[j].1).Some?
    ensures |r| == |entries|
    ensures forall j :: 0 <= j < |entries| ==> r[j] == CorePeer(entries[j].0, ParseContact(entries[j].1).value)
  {
    if entries == [] then []
    else
      var k := |entries| - 1;
      CorePeers(entries[..k]) + [CorePeer(entries[k].0, ParseContact(entries[k].1).value)]
  }

  // ---------------------------------------------------------------------------
  // The client object

  class Client {
    var peers: seq<Peer>
    /** Every socket call made so far. */
    var events: seq<Event>

    /** The state before any configuration is read: no peers, no socket calls. */
    constructor()
      ensures peers == [] && events == []
    {
      peers := [];
      events := [];
    }

    /** `load_cfg`'s loop over the "cores" entries, in configuration order. */
    method LoadCores(entries: seq<(string, string)>) returns (ok: bool)
      modifies this
      ensures var n := ParsedPrefix(entries);
              && (ok <==> n == |entries|)
              && peers == old(peers) + CorePeers(entries[..n])
              && events == old(events)
    {
      for k := 0 to |entries|
        invariant forall j :: 0 <= j < k ==> ParseContact(entries[j].1).Some?
        invariant peers == old(peers) + CorePeers(entries[..k])
        invariant events == old(events)
      {
        var contact := ParseContact(entries[k].1);
        if contact.None? {
          return false;
        }
        assert entries[..k + 1][..k] == entries[..k];
        peers := peers + [CorePeer(entries[k].0, contact.value)];
      }
      assert entries[..|entries|] == entries;
      return true;
    }

    /** `connect(peer)` on the peer at index `i`; `attempt` is the new socket's first reply, `None` if it failed. */
    method Connect(i: nat, attempt: Option<seq<byte>>, newSock: Handle) returns (outcome: ConnectOutcome)
      requires i < |peers|
      modifies this
      ensures outcome == Classify(old(peers[i]), attempt)
      ensures var s := ConnectPeer(old(peers[i]), attempt, newSock);
              peers == old(peers)[i := s.peer] && events == old(events) + s.events
    {
      var p := peers[i];
      if p.conn.Some? {
        return AlreadyConnected;
      }
      events := events + [Opened(newSock, p.node.ip, p.node.port)];
      if attempt == Some(HELLO) {
        peers := peers[i := p.(conn := Some(newSock))];
        return Welcomed;
      }
      events := events + [Closed(newSock)];
      outcome := if attempt == Some(BLOCK) then Blocked else Refused;
    }

    /** `get_key(peer)` on the peer at index `i`, given the bytes the peer answers. */
    method GetKey(i: nat, reply: seq<byte>) returns (err: Option<ClientError>)
      requires i < |peers|
      modifies this
      ensures var s := GetKeyPeer(old(peers[i]), reply);
              peers == old(peers)[i := s.peer] && events == old(events) + s.events && err == s.error
    {
      var p := peers[i];
      if p.conn.None? {
        return Some(NotConnected);
      }
      events := events + [Sent(p.conn.value, GETKEY)];
      var text := DecodeUtf8(reply);
      if text.None? {
        return Some(NotUtf8);
      }
      if EncodeUtf8(PySlice(text.value, 0, 5)) == ISKEY {
        peers := peers[i := Peer(WithPublicKey(p.node, Some(KeyText(KeyBody(text.value)))), p.conn)];
      }
      err := None;
    }

    /** The body of the `init_core` loop for the peer at index `i`. */
    method InitPass(i: nat, attempt: Option<seq<byte>>, newSock: Handle, reply: seq<byte>) returns (err: Option<ClientError>)
      requires i < |peers|
      modifies this
      ensures var s := InitPeer(old(peers[i]), attempt, newSock, reply);
              peers == old(peers)[i := s.peer] && events == old(events) + s.events && err == s.error
    {
      var _ := Connect(i, attempt, newSock);
      err := None;
      if peers[i].conn.Some? {
        err := GetKey(i, reply);
      }
    }

    /**
      `init_core`: every peer in turn is connected and, if that leaves it
      connected, asked for its key; the count returned is the number of
      connected peers, at most the number of peers.
    */
    method InitCore(attempts: seq<Option<seq<byte>>>, sockets: seq<Handle>, replies: seq<seq<byte>>)
      returns (r: Result<nat, ClientError>)
      requires InitArgs(peers, attempts, sockets, replies)
      modifies this
      ensures var run := InitUpTo(old(peers), attempts, sockets, replies, |old(peers)|);
              && peers == run.peers && events == old(events) + run.events
              && r == (if run.error.Some? then Failure(run.error.value) else Success(run.connected))
      ensures r.Success? ==> r.value == CountConnected(peers) <= |peers|
    {
      ghost var ps := peers;
      ghost var start := events;
      ghost var run := InitUpTo(ps, attempts, sockets, replies, 0);
      var connected := 0;
      for k := 0 to |peers|
        invariant run == InitUpTo(ps, attempts, sockets, replies, k)
        invariant run.error.None? && peers == run.peers
        invariant events == start + run.events && connected == run.connected
      {
        InitUpToStep(ps, attempts, sockets, replies, k);
        ghost var step := InitPeer(ps[k], attempts[k], sockets[k], replies[k]);
        AppendAssoc(start, run.events, step.events);
        var err := InitPass(k, attempts[k], sockets[k], replies[k]);
        run := InitUpTo(ps, attempts, sockets, replies, k + 1);
        if err.Some? {
          InitStops(ps, attempts, sockets, replies, k + 1, |ps|);
          return Failure(err.value);
        }
        if peers[k].conn.Some? {
          connected := connected + 1;
        }
      }
      InitUpToCount(ps, attempts, sockets, replies, |ps|);
      assert peers[..|peers|] == peers;
      r := Success(connected);
    }

    /**
      `send(ip, data)`, as written: the guard leaves the payload as it is,
      and it goes out on the first peer at `ip`; with no such peer nothing
      happens.  Bytes are sent unchanged; a string makes `socket.send` raise.
    */
    method Send(ip: string, data: Payload) returns (err: Option<ClientError>)
      modifies this
      ensures peers == old(peers)
      ensures match FirstMatch(old(peers), ip)
              case None => err == None && events == old(events)
              case Some(i) =>
                if old(peers)[i].conn.None? then err == Some(NotConnected) && events == old(events)
                else if data.Text? then err == Some(NotBytes) && events == old(events)
                else err == None && events == old(events) + [Sent(old(peers)[i].conn.value, data.bytes)]
    {
      var out := OutgoingAsWritten(data);
      NeverReencodes(data);
      var i := 0;
      while i < |peers|
        invariant i <= |peers|
        invariant forall j :: 0 <= j < i ==> peers[j].node.ip != ip
      {
        if peers[i].node.ip == ip {
          if peers[i].conn.None? {
            return Some(NotConnected);
          }
          match out {
            case Text(_) =>
              return Some(NotBytes);
            case Bytes(b) =>
              events := events + [Sent(peers[i].conn.value, b)];
              return None;
          }
        }
        i := i + 1;
      }
      err := None;
    }

    /** `recv(ip)`: the first peer at `ip` is read (its answer is `reply`); with no such peer the result is empty. */
    method Recv(ip: string, reply: seq<byte>) returns (r: Result<seq<byte>, ClientError>)
      ensures match FirstMatch(peers, ip)
              case None => r == Success(NULLSTR)
              case Some(i) => r == if peers[i].conn.None? then Failure(NotConnected) else Success(reply)
    {
      r := Success([]);
      var i := 0;
      while i < |peers|
        invariant i <= |peers|
        invariant forall j :: 0 <= j < i ==> peers[j].node.ip != ip
      {
        if peers[i].node.ip == ip {
          if peers[i].conn.None? {
            return Failure(NotConnected);
          }
          return Success(reply);
        }
        i := i + 1;
      }
      UtilityMessages();
    }

    /**
      `disconnect(ip)`: every peer at `ip` has its connection closed, in list
      order, until one without a connection raises; the exception is caught
      and ends the loop.  Connections are closed but not cleared.
    */
    method Disconnect(ip: string) returns (stopped: bool)
      modifies this
      ensures peers == old(peers)
      ensures var run := CloseUpTo(old(peers), ip, |old(peers)|);
              stopped == run.stopped && events == old(events) + Closes(run.closed)
    {
      var i := 0;
      while i < |peers|
        invariant i <= |peers| && peers == old(peers)
        invariant !CloseUpTo(peers, ip, i).stopped
        invariant events == old(events) + Closes(CloseUpTo(peers, ip, i).closed)
      {
        if peers[i].node.ip == ip {
          if peers[i].conn.None? {
            CloseStops(peers, ip, i + 1, |peers|);
            return true;
          }
          events := events + [Closed(peers[i].conn.value)];
        }
        i := i + 1;
      }
      stopped := false;
    }
  }
}
