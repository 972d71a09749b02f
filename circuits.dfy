/**
  Several relays of src/SimpleNode.py wired together, and the five frames
  `run_client` sends through them.  Each relay is a `RelayNode` in a map
  from address to relay.  A frame delivered to a relay is stepped as in
  `Relay.Step`, and its actions are carried out: a forwarded frame is
  delivered, in turn, to the relay at the other end of the link, and the
  reply the forwarding relay waits for is that relay's echo.
*/
module Circuits {
  import opened Wrappers
  import opened Text
  import opened Frames
  import opened Relay

  datatype Addr = Addr(host: string, port: int)

  /** A relay process: whether it is serving a connection, its downstream link, and the messages it has delivered. */
  datatype RelayNode = RelayNode(serving: bool, link: Option<Addr>, delivered: seq<string>)

  type Network = map<Addr, RelayNode>

  /** Why a frame could not travel: a relay raised, or a link could not be made or used. */
  datatype NetFault =
    | Crash(at: Addr, fault: Fault)  // the relay at `at` raised on the frame
    | Unreachable(addr: Addr)        // no relay listens at `addr`
    | Busy(addr: Addr)               // the relay at `addr` is serving another connection and never reads this one
    | NoLink(at: Addr)               // a forward with no downstream socket
    | Cycle(addr: Addr)              // a forward back into a relay that is itself waiting for a reply

  /** The address a relay connects to: the address field with its NUL padding removed. */
  function Resolve(ip: string, port: int): (r: Addr)
    ensures r.port == port
    ensures |r.host| <= |ip| && r.host == ip[..|r.host|] && (r.host == [] || r.host[|r.host| - 1] != NUL)
    ensures forall i :: |r.host| <= i < |ip| ==> ip[i] == NUL
  {
    Addr(StripTrailingNuls(ip), port)
  }

  /** Accepting a connection: the relay starts serving it with no downstream link. */
  function Accept(n: RelayNode): (r: RelayNode)
    ensures r.serving && r.link.None? && r.delivered == n.delivered
  {
    RelayNode(true, None, n.delivered)
  }

  /**
    The frame arrives at the relay at `at`.  `visiting` holds the relays
    upstream of it that are waiting for its reply.
  */
  function Deliver(net: Network, at: Addr, frame: seq<byte>, visiting: set<Addr>): (r: Result<Network, NetFault>)
    requires at in net && at !in visiting
    ensures r.Success? ==> r.value.Keys == net.Keys
    decreases net.Keys - visiting, 0
  {
    match Step(net[at].link.Some?, frame)
    case Failure(f) => Failure(Crash(at, f))
    case Success(o) => Perform(net, at, o.actions, visiting + {at})
  }

  /** The relay at `at` carries out `actions` in order. */
  function Perform(net: Network, at: Addr, actions: seq<Action>, visiting: set<Addr>): (r: Result<Network, NetFault>)
    requires at in net && at in visiting
    ensures r.Success? ==> r.value.Keys == net.Keys
    decreases net.Keys - visiting, 1, |actions|
  {
    if actions == [] then Success(net)
    else
      var rest := actions[1..];
      var node := net[at];
      match actions[0]
      case EchoUpstream(_) => Perform(net, at, rest, visiting)
      case AwaitDownstream => Perform(net, at, rest, visiting)
      case OpenDownstream(ip, port) =>
        var target := Resolve(ip, port);
        if target !in net then Failure(Unreachable(target))
        else if net[target].serving then Failure(Busy(target))
        else
          var accepted := net[target := Accept(net[target])];
          Perform(accepted[at := accepted[at].(link := Some(target))], at, rest, visiting)
      case ForwardDownstream(frame) =>
        if node.link.None? then Failure(NoLink(at))
        else if node.link.value !in net then Failure(Unreachable(node.link.value))
        else if node.link.value in visiting then Failure(Cycle(node.link.value))
        else
          (match Deliver(net, node.link.value, frame, visiting)
           case Failure(e) => Failure(e)
           case Success(after) => Perform(after, at, rest, visiting))
      case DeliverLocally(m) => Perform(net[at := node.(delivered := node.delivered + [m])], at, rest, visiting)
      case CloseDownstream => Perform(net[at := node.(link := None)], at, rest, visiting)
      case CloseUpstream => Perform(net[at := node.(serving := false)], at, rest, visiting)
  }

  /** What a client script stops on: a frame that cannot be packed, or one the network cannot carry. */
  datatype ClientError = PackFailed(error: PackError) | NetworkFailed(fault: NetFault)

  /** One line of a client script: the address field, the port field, the type and the message. */
  datatype Send = Send(to: Addr, ptype: PacketType, message: string)

  /**
    The client packs each frame just before sending it over its one
    connection to the relay at `entry`; the reply it reads is the entry
    relay's echo.  A frame that does not pack stops the script after the
    frames already sent.
  */
  function SendAll(net: Network, entry: Addr, script: seq<Send>): (r: Result<Network, ClientError>)
    requires entry in net
    ensures r.Success? ==> r.value.Keys == net.Keys
    decreases |script|
  {
    if script == [] then Success(net)
    else
      var s := script[0];
      match PackPacket(s.to.host, s.to.port, Value(s.ptype), s.message)
      case Failure(e) => Failure(PackFailed(e))
      case Success(frame) =>
        match Deliver(net, entry, frame, {})
        case Failure(f) => Failure(NetworkFailed(f))
        case Success(after) => SendAll(after, entry, script[1..])
  }

  const GREETING: string := "Hello, world!"

  lemma GreetingAscii()
    ensures IsAscii(GREETING)
  {
  }

  /** The frames of `run_client`: CONNECT to the second, third and last hop, the greeting to the last, then DISCONNECT. */
  function ClientScript(b: Addr, c: Addr, dest: Addr): (script: seq<Send>)
    ensures |script| == 5
  {
    [ Send(b, Connect, ""), Send(c, Connect, ""), Send(dest, Connect, ""),
      Send(dest, Message, GREETING), Send(dest, Disconnect, "") ]
  }

  /** `run_client`: connect to the first hop, then send the script. */
  function RunClient(net: Network, a: Addr, b: Addr, c: Addr, dest: Addr): (r: Result<Network, ClientError>)
    ensures r.Success? ==> r.value.Keys == net.Keys
  {
    if a !in net then Failure(NetworkFailed(Unreachable(a)))
    else if net[a].serving then Failure(NetworkFailed(Busy(a)))
    else SendAll(net[a := Accept(net[a])], a, ClientScript(b, c, dest))
  }

  // ---------------------------------------------------------------------
  // Circuits of relays

  /**
    `path` is a circuit: distinct relays, all serving, each linked to the
    next, the last one with no link.
  */
  predicate Chain(net: Network, path: seq<Addr>) {
    && |path| >= 1
    && (forall k :: 0 <= k < |path| ==> path[k] in net && net[path[k]].serving)
    && (forall j, k :: 0 <= j < k < |path| ==> path[j] != path[k])
    && (forall k :: 0 <= k < |path| - 1 ==> net[path[k]].link == Some(path[k + 1]))
    && net[path[|path| - 1]].link == None
  }

  function Last(path: seq<Addr>): Addr
    requires |path| >= 1
  {
    path[|path| - 1]
  }

  /** A buffer that steps, of type `t`. */
  predicate IsFrame(frame: seq<byte>, t: PacketType) {
    Decodable(frame) && TypeField(frame) == Value(t)
  }

  /** The relay a frame's address fields name. */
  function FrameTarget(frame: seq<byte>): Addr
    requires Decodable(frame)
  {
    Resolve(DecodeAscii(frame[..IP_WIDTH]).value, ReadU16BE(frame[IP_WIDTH..IP_WIDTH + 2]))
  }

  /** A frame's message field, as the receiving relay decodes it. */
  function FrameMessage(frame: seq<byte>): string
    requires Decodable(frame)
  {
    DecodeAscii(frame[IP_WIDTH + 4..]).value
  }

  /** The circuit grown by one hop: the new last relay serves with no link, and the old last relay links to it. */
  function Extend(net: Network, path: seq<Addr>, t: Addr): (r: Network)
    requires Chain(net, path) && t in net && !net[t].serving
    ensures r.Keys == net.Keys
    ensures Chain(r, path + [t])
    ensures forall x :: x in net && x != t && x != Last(path) ==> r[x] == net[x]
    ensures forall x :: x in net ==> r[x].delivered == net[x].delivered
  {
    var accepted := net[t := Accept(net[t])];
    var r := accepted[Last(path) := accepted[Last(path)].(link := Some(t))];
    var extended := path + [t];
    assert forall k :: 0 <= k < |path| ==> extended[k] == path[k];
    r
  }

  /** Every relay of `path` stops serving and drops its link; the rest of the network is untouched. */
  function Teardown(net: Network, path: seq<Addr>): (r: Network)
    ensures r.Keys == net.Keys
  {
    map a | a in net :: if a in path then net[a].(serving := false, link := None) else net[a]
  }

  /** After a teardown the relays of the path are idle with no link, deliveries are kept, and nothing else changed. */
  lemma TeardownShape(net: Network, path: seq<Addr>)
    ensures var r := Teardown(net, path);
            && (forall x :: x in net && x in path ==> !r[x].serving && r[x].link == None)
            && (forall x :: x in net ==> r[x].delivered == net[x].delivered)
            && (forall x :: x in net && x !in path ==> r[x] == net[x])
  {
  }

  /** The last relay of the circuit has delivered `m`. */
  function DeliveredAtEnd(net: Network, path: seq<Addr>, m: string): (r: Network)
    requires Chain(net, path)
    ensures r.Keys == net.Keys && Chain(r, path)
    ensures forall x :: x in net && x != Last(path) ==> r[x] == net[x]
    ensures r[Last(path)] == net[Last(path)].(delivered := net[Last(path)].delivered + [m])
  {
    net[Last(path) := net[Last(path)].(delivered := net[Last(path)].delivered + [m])]
  }

  /** The part of the circuit after its first relay is a circuit. */
  lemma ChainTail(net: Network, path: seq<Addr>)
    requires Chain(net, path) && |path| >= 2
    ensures Chain(net, path[1..]) && Last(path[1..]) == Last(path)
  {
  }

  /** At the last relay of a circuit, which is idle downstream, a CONNECT opens the link. */
  lemma ConnectAtEnd(net: Network, path: seq<Addr>, frame: seq<byte>, visiting: set<Addr>)
    requires Chain(net, path) && |path| == 1
    requires IsFrame(frame, Connect)
    requires FrameTarget(frame) in net && !net[FrameTarget(frame)].serving
    requires path[0] !in visiting
    ensures Deliver(net, path[0], frame, visiting) == Success(Extend(net, path, FrameTarget(frame)))
  {
    var at := path[0];
    var v := visiting + {at};
    var next := Extend(net, path, FrameTarget(frame));
    var f := UnpackPacket(frame).value;
    var acts := [EchoUpstream(frame), OpenDownstream(DecodeAscii(f.ip).value, f.port)];
    assert Step(false, frame) == Success(Outcome(true, acts, true));
    assert Deliver(net, at, frame, visiting) == Perform(net, at, acts, v);
    assert Perform(net, at, acts, v) == Perform(net, at, acts[1..], v);
    assert Perform(net, at, acts[1..], v) == Perform(next, at, [], v);
  }

  /** A relay with a link forwards a CONNECT and, once the rest of the circuit has grown, waits and is done. */
  lemma ConnectForwards(net: Network, path: seq<Addr>, frame: seq<byte>, visiting: set<Addr>)
    requires Chain(net, path) && |path| >= 2
    requires IsFrame(frame, Connect)
    requires FrameTarget(frame) in net && !net[FrameTarget(frame)].serving
    requires path[0] !in visiting && path[1] !in visiting
    requires Deliver(net, path[1], frame, visiting + {path[0]}) == Success(Extend(net, path[1..], FrameTarget(frame)))
    ensures Deliver(net, path[0], frame, visiting) == Success(Extend(net, path, FrameTarget(frame)))
  {
    var t := FrameTarget(frame);
    var at := path[0];
    var v := visiting + {at};
    var next := Extend(net, path, t);
    ChainTail(net, path);
    var acts := [EchoUpstream(frame), ForwardDownstream(frame), AwaitDownstream];
    assert Step(true, frame) == Success(Outcome(true, acts, true));
    assert Extend(net, path[1..], t) == next;
    assert Deliver(net, at, frame, visiting) == Perform(net, at, acts, v);
    assert Perform(net, at, acts, v) == Perform(net, at, acts[1..], v);
    assert Perform(net, at, acts[1..], v) == Perform(next, at, acts[2..], v);
    assert Perform(next, at, acts[2..], v) == Perform(next, at, [], v);
  }

  /**
    A CONNECT frame entering a circuit at its first relay is forwarded hop
    by hop to the last relay, which opens a link to the frame's address:
    the circuit grows by that relay.
  */
  lemma {:induction false} ConnectExtends(net: Network, path: seq<Addr>, frame: seq<byte>, visiting: set<Addr>)
    requires Chain(net, path)
    requires IsFrame(frame, Connect)
    requires FrameTarget(frame) in net && !net[FrameTarget(frame)].serving
    requires forall k :: 0 <= k < |path| ==> path[k] !in visiting
    ensures Deliver(net, path[0], frame, visiting) == Success(Extend(net, path, FrameTarget(frame)))
    decreases |path|
  {
    if |path| == 1 {
      ConnectAtEnd(net, path, frame, visiting);
    } else {
      ChainTail(net, path);
      ConnectExtends(net, path[1..], frame, visiting + {path[0]});
      ConnectForwards(net, path, frame, visiting);
    }
  }

  /** A MESSAGE frame entering a circuit is forwarded to the last relay and delivered there, and only there. */
  lemma {:induction false} MessageReachesEnd(net: Network, path: seq<Addr>, frame: seq<byte>, visiting: set<Addr>)
    requires Chain(net, path)
    requires IsFrame(frame, Message)
    requires forall k :: 0 <= k < |path| ==> path[k] !in visiting
    ensures Deliver(net, path[0], frame, visiting) == Success(DeliveredAtEnd(net, path, FrameMessage(frame)))
    decreases |path|
  {
    var at := path[0];
    var v := visiting + {at};
    var next := DeliveredAtEnd(net, path, FrameMessage(frame));
    var f := UnpackPacket(frame).value;
    if |path| == 1 {
      var acts := [EchoUpstream(frame), DeliverLocally(DecodeAscii(f.message).value)];
      assert Step(false, frame) == Success(Outcome(false, acts, true));
      assert Deliver(net, at, frame, visiting) == Perform(net, at, acts, v);
      assert Perform(net, at, acts, v) == Perform(net, at, acts[1..], v);
      assert Perform(net, at, acts[1..], v) == Perform(next, at, [], v);
    } else {
      ChainTail(net, path);
      var acts := [EchoUpstream(frame), ForwardDownstream(frame), AwaitDownstream];
      assert Step(true, frame) == Success(Outcome(true, acts, true));
      MessageReachesEnd(net, path[1..], frame, v);
      assert DeliveredAtEnd(net, path[1..], FrameMessage(frame)) == next;
      assert Deliver(net, at, frame, visiting) == Perform(net, at, acts, v);
      assert Perform(net, at, acts, v) == Perform(net, at, acts[1..], v);
      assert Perform(net, at, acts[1..], v) == Perform(next, at, acts[2..], v);
      assert Perform(next, at, acts[2..], v) == Perform(next, at, [], v);
    }
  }

  /** At the last relay, a DISCONNECT only ends the session. */
  lemma DisconnectAtEnd(net: Network, path: seq<Addr>, frame: seq<byte>, visiting: set<Addr>)
    requires Chain(net, path) && |path| == 1
    requires IsFrame(frame, Disconnect)
    requires path[0] !in visiting
    ensures Deliver(net, path[0], frame, visiting) == Success(Teardown(net, path))
  {
    var at := path[0];
    var v := visiting + {at};
    var node := net[at];
    var acts := [EchoUpstream(frame), CloseUpstream];
    assert Step(false, frame) == Success(Outcome(false, acts, false));
    assert net[at := node.(serving := false)] == Teardown(net, path);
    assert Deliver(net, at, frame, visiting) == Perform(net, at, acts, v);
    assert Perform(net, at, acts, v) == Perform(net, at, acts[1..], v);
    assert Perform(net, at, acts[1..], v) == Perform(Teardown(net, path), at, [], v);
  }

  /** Closing the downstream link, then the upstream connection. */
  lemma PerformCloses(net: Network, at: Addr, v: set<Addr>)
    requires at in net && at in v
    ensures Perform(net, at, [CloseDownstream, CloseUpstream], v)
         == Success(net[at := net[at].(link := None, serving := false)])
  {
    var unlinked := net[at := net[at].(link := None)];
    assert Perform(net, at, [CloseDownstream, CloseUpstream], v) == Perform(unlinked, at, [CloseUpstream], v);
    assert Perform(unlinked, at, [CloseUpstream], v) == Perform(unlinked[at := unlinked[at].(serving := false)], at, [], v);
    assert unlinked[at := unlinked[at].(serving := false)] == net[at := net[at].(link := None, serving := false)];
  }

  /** A relay with a link forwards a DISCONNECT, waits, then closes both of its sockets. */
  lemma DisconnectForwards(net: Network, path: seq<Addr>, frame: seq<byte>, visiting: set<Addr>)
    requires Chain(net, path) && |path| >= 2
    requires IsFrame(frame, Disconnect)
    requires path[0] !in visiting && path[1] !in visiting
    requires Deliver(net, path[1], frame, visiting + {path[0]}) == Success(Teardown(net, path[1..]))
    ensures Deliver(net, path[0], frame, visiting) == Success(Teardown(net, path))
  {
    var at := path[0];
    var v := visiting + {at};
    var node := net[at];
    ChainTail(net, path);
    var acts := [EchoUpstream(frame), ForwardDownstream(frame), AwaitDownstream, CloseDownstream, CloseUpstream];
    assert Step(true, frame) == Success(Outcome(false, acts, false));
    var down := Teardown(net, path[1..]);
    assert at !in path[1..];
    assert down[at] == node;
    PerformCloses(down, at, v);
    assert down[at := node.(link := None, serving := false)] == Teardown(net, path);
    assert acts[3..] == [CloseDownstream, CloseUpstream];
    assert Deliver(net, at, frame, visiting) == Perform(net, at, acts, v);
    assert Perform(net, at, acts, v) == Perform(net, at, acts[1..], v);
    assert Perform(net, at, acts[1..], v) == Perform(down, at, acts[2..], v);
    assert Perform(down, at, acts[2..], v) == Perform(down, at, acts[3..], v);
  }

  /**
    A DISCONNECT frame entering a circuit travels to its last relay; on the
    way back every relay closes its downstream link and its upstream
    connection, so the whole circuit is idle again.
  */
  lemma {:induction false} DisconnectTearsDown(net: Network, path: seq<Addr>, frame: seq<byte>, visiting: set<Addr>)
    requires Chain(net, path)
    requires IsFrame(frame, Disconnect)
    requires forall k :: 0 <= k < |path| ==> path[k] !in visiting
    ensures Deliver(net, path[0], frame, visiting) == Success(Teardown(net, path))
    decreases |path|
  {
    if |path| == 1 {
      DisconnectAtEnd(net, path, frame, visiting);
    } else {
      ChainTail(net, path);
      DisconnectTearsDown(net, path[1..], frame, visiting + {path[0]});
      DisconnectForwards(net, path, frame, visiting);
    }
  }

  // ---------------------------------------------------------------------
  // The client's script through four relays

  /** An address `pack_packet` accepts and a relay reads back unchanged. */
  predicate Addressable(x: Addr) {
    IsAscii(x.host) && |x.host| <= IP_WIDTH && (x.host == [] || x.host[|x.host| - 1] != NUL) && IsU16(x.port)
  }

  /** A script line to an addressable relay packs into a frame of its type, naming that relay and carrying the padded message. */
  lemma PackedSend(s: Send)
    requires Addressable(s.to) && IsAscii(s.message)
    ensures var r := PackPacket(s.to.host, s.to.port, Value(s.ptype), s.message);
            && r.Success? && IsFrame(r.value, s.ptype)
            && FrameTarget(r.value) == s.to && FrameMessage(r.value) == PadText(s.message, MESSAGE_WIDTH)
  {
    var frame := PackPacket(s.to.host, s.to.port, Value(s.ptype), s.message).value;
    PackPacketRoundTrip(s.to.host, s.to.port, Value(s.ptype), s.message);
    StripPadText(s.to.host, IP_WIDTH);
  }

  lemma SendAllStep(net: Network, entry: Addr, script: seq<Send>, frame: seq<byte>, after: Network)
    requires entry in net && script != []
    requires PackPacket(script[0].to.host, script[0].to.port, Value(script[0].ptype), script[0].message) == Success(frame)
    requires Deliver(net, entry, frame, {}) == Success(after)
    ensures SendAll(net, entry, script) == SendAll(after, entry, script[1..])
  {
  }

  /** A CONNECT line grows the circuit the client is attached to by the relay it names. */
  lemma SendConnect(net: Network, path: seq<Addr>, script: seq<Send>)
    requires Chain(net, path) && script != []
    requires script[0].ptype == Connect && Addressable(script[0].to) && IsAscii(script[0].message)
    requires script[0].to in net && !net[script[0].to].serving
    ensures Chain(Extend(net, path, script[0].to), path + [script[0].to])
    ensures SendAll(net, path[0], script) == SendAll(Extend(net, path, script[0].to), path[0], script[1..])
  {
    var s := script[0];
    PackedSend(s);
    var frame := PackPacket(s.to.host, s.to.port, Value(s.ptype), s.message).value;
    ConnectExtends(net, path, frame, {});
    SendAllStep(net, path[0], script, frame, Extend(net, path, s.to));
  }

  /** A MESSAGE line is delivered, padded, at the end of the circuit. */
  lemma SendMessage(net: Network, path: seq<Addr>, script: seq<Send>)
    requires Chain(net, path) && script != []
    requires script[0].ptype == Message && Addressable(script[0].to) && IsAscii(script[0].message)
    ensures var next := DeliveredAtEnd(net, path, PadText(script[0].message, MESSAGE_WIDTH));
            SendAll(net, path[0], script) == SendAll(next, path[0], script[1..])
  {
    var s := script[0];
    PackedSend(s);
    var frame := PackPacket(s.to.host, s.to.port, Value(s.ptype), s.message).value;
    MessageReachesEnd(net, path, frame, {});
    SendAllStep(net, path[0], script, frame, DeliveredAtEnd(net, path, FrameMessage(frame)));
  }

  /** A DISCONNECT line tears the whole circuit down. */
  lemma SendDisconnect(net: Network, path: seq<Addr>, script: seq<Send>)
    requires Chain(net, path) && script != []
    requires script[0].ptype == Disconnect && Addressable(script[0].to) && IsAscii(script[0].message)
    ensures SendAll(net, path[0], script) == SendAll(Teardown(net, path), path[0], script[1..])
  {
    var s := script[0];
    PackedSend(s);
    var frame := PackPacket(s.to.host, s.to.port, Value(s.ptype), s.message).value;
    DisconnectTearsDown(net, path, frame, {});
    SendAllStep(net, path[0], script, frame, Teardown(net, path));
  }

  /** The relays of a run: four distinct, idle relays, the last three reachable by the addresses in the frames. */
  predicate IdleRoute(net: Network, a: Addr, b: Addr, c: Addr, dest: Addr) {
    && a in net && b in net && c in net && dest in net
    && !net[a].serving && !net[b].serving && !net[c].serving && !net[dest].serving
    && a != b && a != c && a != dest && b != c && b != dest && c != dest
    && Addressable(b) && Addressable(c) && Addressable(dest)
  }

  lemma ChainOfOne(net: Network, a: Addr)
    requires a in net && net[a].serving && net[a].link == None
    ensures Chain(net, [a])
  {
  }

  /** The network once the client is connected to the first relay. */
  function Attached(net: Network, a: Addr, b: Addr, c: Addr, dest: Addr): (r: Network)
    requires IdleRoute(net, a, b, c, dest)
    ensures r.Keys == net.Keys && Chain(r, [a])
    ensures forall x :: x in net && x != a ==> r[x] == net[x]
    ensures forall x :: x in net ==> r[x].delivered == net[x].delivered
  {
    var r := net[a := Accept(net[a])];
    ChainOfOne(r, a);
    r
  }

  /** After the first CONNECT: the circuit a, b. */
  function OneHop(net: Network, a: Addr, b: Addr, c: Addr, dest: Addr): (r: Network)
    requires IdleRoute(net, a, b, c, dest)
    ensures r.Keys == net.Keys && Chain(r, [a, b])
    ensures forall x :: x in net && x != a && x != b ==> r[x] == net[x]
    ensures forall x :: x in net ==> r[x].delivered == net[x].delivered
  {
    assert [a] + [b] == [a, b];
    Extend(Attached(net, a, b, c, dest), [a], b)
  }

  /** After the second CONNECT: the circuit a, b, c. */
  function TwoHops(net: Network, a: Addr, b: Addr, c: Addr, dest: Addr): (r: Network)
    requires IdleRoute(net, a, b, c, dest)
    ensures r.Keys == net.Keys && Chain(r, [a, b, c])
    ensures forall x :: x in net && x != a && x != b && x != c ==> r[x] == net[x]
    ensures forall x :: x in net ==> r[x].delivered == net[x].delivered
  {
    assert [a, b] + [c] == [a, b, c];
    Extend(OneHop(net, a, b, c, dest), [a, b], c)
  }

  /** After the third CONNECT: the circuit a, b, c, dest. */
  function Connected(net: Network, a: Addr, b: Addr, c: Addr, dest: Addr): (r: Network)
    requires IdleRoute(net, a, b, c, dest)
    ensures r.Keys == net.Keys && Chain(r, [a, b, c, dest])
    ensures forall x :: x in net && x !in [a, b, c, dest] ==> r[x] == net[x]
    ensures forall x :: x in net ==> r[x].delivered == net[x].delivered
  {
    assert [a, b, c] + [dest] == [a, b, c, dest];
    Extend(TwoHops(net, a, b, c, dest), [a, b, c], dest)
  }

  /** After the greeting: delivered at the end of the circuit. */
  function Greeted(net: Network, a: Addr, b: Addr, c: Addr, dest: Addr): (r: Network)
    requires IdleRoute(net, a, b, c, dest)
    ensures r.Keys == net.Keys && Chain(r, [a, b, c, dest])
    ensures forall x :: x in net && x !in [a, b, c, dest] ==> r[x] == net[x]
    ensures forall x :: x in net && x != dest ==> r[x].delivered == net[x].delivered
    ensures r[dest].delivered == net[dest].delivered + [PadText(GREETING, MESSAGE_WIDTH)]
  {
    DeliveredAtEnd(Connected(net, a, b, c, dest), [a, b, c, dest], PadText(GREETING, MESSAGE_WIDTH))
  }

  lemma ClientAttaches(net: Network, a: Addr, b: Addr, c: Addr, dest: Addr)
    requires IdleRoute(net, a, b, c, dest)
    ensures RunClient(net, a, b, c, dest) == SendAll(Attached(net, a, b, c, dest), a, ClientScript(b, c, dest))
  {
  }

  /** The first CONNECT of `run_client` links the first relay to the second. */
  lemma ClientFirstConnect(net: Network, a: Addr, b: Addr, c: Addr, dest: Addr)
    requires IdleRoute(net, a, b, c, dest)
    ensures var script := ClientScript(b, c, dest);
            SendAll(Attached(net, a, b, c, dest), a, script) == SendAll(OneHop(net, a, b, c, dest), a, script[1..])
  {
    SendConnect(Attached(net, a, b, c, dest), [a], ClientScript(b, c, dest));
  }

  /** The second CONNECT travels through the first relay and links the second to the third. */
  lemma ClientSecondConnect(net: Network, a: Addr, b: Addr, c: Addr, dest: Addr)
    requires IdleRoute(net, a, b, c, dest)
    ensures var script := ClientScript(b, c, dest);
            SendAll(OneHop(net, a, b, c, dest), a, script[1..]) == SendAll(TwoHops(net, a, b, c, dest), a, script[2..])
  {
    var script := ClientScript(b, c, dest);
    assert script[1..][1..] == script[2..];
    SendConnect(OneHop(net, a, b, c, dest), [a, b], script[1..]);
  }

  /** The third CONNECT travels through two relays and links the third to the destination. */
  lemma ClientThirdConnect(net: Network, a: Addr, b: Addr, c: Addr, dest: Addr)
    requires IdleRoute(net, a, b, c, dest)
    ensures var script := ClientScript(b, c, dest);
            SendAll(TwoHops(net, a, b, c, dest), a, script[2..]) == SendAll(Connected(net, a, b, c, dest), a, script[3..])
  {
    var script := ClientScript(b, c, dest);
    assert script[2..][1..] == script[3..];
    SendConnect(TwoHops(net, a, b, c, dest), [a, b, c], script[2..]);
  }

  /** The greeting travels the whole circuit and is delivered at the destination. */
  lemma ClientGreets(net: Network, a: Addr, b: Addr, c: Addr, dest: Addr)
    requires IdleRoute(net, a, b, c, dest)
    ensures var script := ClientScript(b, c, dest);
            SendAll(Connected(net, a, b, c, dest), a, script[3..]) == SendAll(Greeted(net, a, b, c, dest), a, script[4..])
  {
    var script := ClientScript(b, c, dest);
    var n := Connected(net, a, b, c, dest);
    var path := [a, b, c, dest];
    var rest := script[3..];
    assert rest[1..] == script[4..];
    assert rest[0].message == GREETING;
    GreetingAscii();
    SendMessage(n, path, rest);
  }

  /** The DISCONNECT tears the circuit down, and it is the last frame. */
  lemma ClientDisconnects(net: Network, a: Addr, b: Addr, c: Addr, dest: Addr)
    requires IdleRoute(net, a, b, c, dest)
    ensures var script := ClientScript(b, c, dest);
            SendAll(Greeted(net, a, b, c, dest), a, script[4..]) == Success(Teardown(Greeted(net, a, b, c, dest), [a, b, c, dest]))
  {
    var script := ClientScript(b, c, dest);
    assert script[4..][1..] == [];
    SendDisconnect(Greeted(net, a, b, c, dest), [a, b, c, dest], script[4..]);
  }

  /**
    After the three CONNECT frames of `run_client` the four relays form the
    circuit a, b, c, dest, whatever happens to the last two frames.
  */
  lemma ClientBuildsCircuit(net: Network, a: Addr, b: Addr, c: Addr, dest: Addr)
    requires IdleRoute(net, a, b, c, dest)
    ensures Chain(Connected(net, a, b, c, dest), [a, b, c, dest])
    ensures RunClient(net, a, b, c, dest) == SendAll(Connected(net, a, b, c, dest), a, ClientScript(b, c, dest)[3..])
  {
    ClientAttaches(net, a, b, c, dest);
    ClientFirstConnect(net, a, b, c, dest);
    ClientSecondConnect(net, a, b, c, dest);
    ClientThirdConnect(net, a, b, c, dest);
  }

  /**
    The whole `run_client` run: the greeting is delivered, NUL-padded to the
    message width, at the destination and nowhere else, and the DISCONNECT
    leaves all four relays idle with no links.  No other relay changes.
  */
  lemma ClientRunScenario(net: Network, a: Addr, b: Addr, c: Addr, dest: Addr)
    requires IdleRoute(net, a, b, c, dest)
    ensures var r := RunClient(net, a, b, c, dest);
            && r.Success? && r.value.Keys == net.Keys
            && (forall x :: x in [a, b, c, dest] ==> !r.value[x].serving && r.value[x].link == None)
            && r.value[dest].delivered == net[dest].delivered + [PadText(GREETING, MESSAGE_WIDTH)]
            && (forall x :: x in net && x != dest ==> r.value[x].delivered == net[x].delivered)
            && (forall x :: x in net && x !in [a, b, c, dest] ==> r.value[x] == net[x])
  {
    ClientBuildsCircuit(net, a, b, c, dest);
    ClientGreets(net, a, b, c, dest);
    ClientDisconnects(net, a, b, c, dest);
    var g := Greeted(net, a, b, c, dest);
    var t := Teardown(g, [a, b, c, dest]);
    TeardownShape(g, [a, b, c, dest]);
    assert RunClient(net, a, b, c, dest) == Success(t);
  }
}
