/**
  The relay loop of `run_server` in src/SimpleNode.py.  A relay serves one
  accepted connection at a time.  Each connection starts with no downstream
  link (`client_active` false), and every frame read from it is handled in
  the same order: unpack, decode both text fields as ASCII, name the packet
  type, echo the frame back upstream, then act on the type.

  Sockets are replaced by their traffic: the frames a connection delivers
  are a parameter, and what the relay does with them is a list of `Action`s.
*/
module Relay {
  import opened Wrappers
  import opened Text
  import opened Frames

  /** What the relay does to its two sockets, or to its console. */
  datatype Action =
    | EchoUpstream(frame: seq<byte>)            // conn.send(data)
    | OpenDownstream(ip: string, port: int)     // client_sock.connect((ip, port))
    | ForwardDownstream(frame: seq<byte>)       // client_sock.send(data)
    | AwaitDownstream                           // client_sock.recv(1024), reply discarded
    | DeliverLocally(message: string)           // the endpoint's "Message received"
    | CloseDownstream                           // client_sock.close()
    | CloseUpstream                             // conn.close()

  /** The exceptions a frame can raise; none is caught, so each ends the server. */
  datatype Fault =
    | MalformedFrame     // struct.error: the buffer is not exactly one frame
    | NonAsciiField      // UnicodeDecodeError on the address or the message
    | UnknownPacketType  // ValueError from PacketType(packet_type)

  /** The relay after one frame: its link flag, what it did, and whether it keeps reading this connection. */
  datatype Outcome = Outcome(active: bool, actions: seq<Action>, sessionOpen: bool)

  /** A buffer that unpacks and whose two text fields are ASCII. */
  predicate Decodable(data: seq<byte>) {
    |data| == FRAME_SIZE && IsAsciiBytes(data[..IP_WIDTH]) && IsAsciiBytes(data[IP_WIDTH + 4..])
  }

  /** The packet-type field of a buffer of frame size. */
  function TypeField(data: seq<byte>): nat
    requires |data| == FRAME_SIZE
  {
    ReadU16BE(data[IP_WIDTH + 2..IP_WIDTH + 4])
  }

  /** The port field of a buffer of frame size. */
  function PortField(data: seq<byte>): nat
    requires |data| == FRAME_SIZE
  {
    ReadU16BE(data[IP_WIDTH..IP_WIDTH + 2])
  }

  /** What the relay does with a well-formed frame of type `t`. */
  function Dispatch(active: bool, data: seq<byte>, ip: string, port: int, t: PacketType, message: string): (o: Outcome)
    ensures o.actions != [] && o.actions[0] == EchoUpstream(data)
  {
    match t
    case Connect =>
      if active then Outcome(true, [EchoUpstream(data), ForwardDownstream(data), AwaitDownstream], true)
      else Outcome(true, [EchoUpstream(data), OpenDownstream(ip, port)], true)
    case Message =>
      if active then Outcome(true, [EchoUpstream(data), ForwardDownstream(data), AwaitDownstream], true)
      else Outcome(false, [EchoUpstream(data), DeliverLocally(message)], true)
    case Disconnect =>
      if active then
        Outcome(false, [EchoUpstream(data), ForwardDownstream(data), AwaitDownstream, CloseDownstream, CloseUpstream], false)
      else Outcome(false, [EchoUpstream(data), CloseUpstream], false)
  }

  /**
    The frame is echoed once, as the first action, and the session ends
    exactly on DISCONNECT, with the link down and the upstream closed last.
  */
  lemma DispatchShape(active: bool, data: seq<byte>, ip: string, port: int, t: PacketType, message: string)
    ensures var o := Dispatch(active, data, ip, port, t, message);
            && (forall k :: 1 <= k < |o.actions| ==> !o.actions[k].EchoUpstream?)
            && (o.sessionOpen <==> t != Disconnect)
            && (!o.sessionOpen ==> !o.active && o.actions[|o.actions| - 1] == CloseUpstream)
  {
  }

  /** One pass of the inner loop of `run_server`, from the link flag and the buffer `recv` returned. */
  function Step(active: bool, data: seq<byte>): (r: Result<Outcome, Fault>)
    ensures r == Failure(MalformedFrame) <==> |data| != FRAME_SIZE
    ensures r == Failure(NonAsciiField) <==> |data| == FRAME_SIZE && !Decodable(data)
    ensures r == Failure(UnknownPacketType) <==> Decodable(data) && PacketTypeOf(TypeField(data)).None?
    ensures r.Success? ==> r.value.actions != [] && r.value.actions[0] == EchoUpstream(data)
  {
    match UnpackPacket(data)
    case Failure(_) => Failure(MalformedFrame)
    case Success(f) =>
      match DecodeAscii(f.ip)
      case None => Failure(NonAsciiField)
      case Some(ip) =>
        match DecodeAscii(f.message)
        case None => Failure(NonAsciiField)
        case Some(message) =>
          match PacketTypeOf(f.ptype)
          case None => Failure(UnknownPacketType)
          case Some(t) => Success(Dispatch(active, data, ip, f.port, t, message))
  }

  /**
    How each packet type moves the relay: CONNECT always leaves a link,
    MESSAGE keeps the flag, DISCONNECT clears it and ends the session; a
    frame is forwarded exactly when a link was up, opens one exactly when
    it was a CONNECT with no link, and is delivered exactly when it was a
    MESSAGE with no link.
  */
  lemma StepTransitions(active: bool, data: seq<byte>)
    requires Step(active, data).Success?
    ensures var o := Step(active, data).value;
            var t := PacketTypeOf(TypeField(data)).value;
            && (t == Connect ==> o.active && o.sessionOpen)
            && (t == Message ==> o.active == active && o.sessionOpen)
            && (t == Disconnect ==> !o.active && !o.sessionOpen && o.actions[|o.actions| - 1] == CloseUpstream)
            && (ForwardDownstream(data) in o.actions <==> active)
            && ((exists ip, port :: OpenDownstream(ip, port) in o.actions) <==> !active && t == Connect)
            && ((exists m :: DeliverLocally(m) in o.actions) <==> !active && t == Message)
            && (!active && t == Connect ==>
                  OpenDownstream(DecodeAscii(data[..IP_WIDTH]).value, PortField(data)) in o.actions)
            && (!active && t == Message ==>
                  DeliverLocally(DecodeAscii(data[IP_WIDTH + 4..]).value) in o.actions)
  {
    var o := Step(active, data).value;
    var t := PacketTypeOf(TypeField(data)).value;
    var f := UnpackPacket(data).value;
    assert f.ip == data[..IP_WIDTH] && f.port == PortField(data) && f.message == data[IP_WIDTH + 4..];
    if !active && t == Connect {
      assert OpenDownstream(o.actions[1].ip, o.actions[1].port) in o.actions;
    }
    if !active && t == Message {
      assert DeliverLocally(o.actions[1].message) in o.actions;
    }
  }

  /**
    The link discipline: running `actions` from link state `active` never
    opens a second link, never forwards, waits on or closes a missing one,
    and never delivers locally while a link is up.  The result is the link
    state at the end, or `None` at the first violation.
  */
  function LinkAfter(active: bool, actions: seq<Action>): Option<bool>
    decreases |actions|
  {
    if actions == [] then Some(active)
    else
      match LinkStep(active, actions[0])
      case None => None
      case Some(next) => LinkAfter(next, actions[1..])
  }

  /** The link state after one action, or `None` if the action needs the other state. */
  function LinkStep(active: bool, action: Action): Option<bool> {
    match action
    case OpenDownstream(_, _) => if active then None else Some(true)
    case ForwardDownstream(_) => if active then Some(true) else None
    case AwaitDownstream => if active then Some(true) else None
    case CloseDownstream => if active then Some(false) else None
    case DeliverLocally(_) => if active then None else Some(false)
    case EchoUpstream(_) => Some(active)
    case CloseUpstream => Some(active)
  }

  lemma {:induction false} LinkAfterAppend(active: bool, p: seq<Action>, q: seq<Action>)
    ensures LinkAfter(active, p + q) == match LinkAfter(active, p) case None => None case Some(b) => LinkAfter(b, q)
    decreases |p|
  {
    if p != [] {
      assert (p + q)[1..] == p[1..] + q;
      assert (p + q)[0] == p[0];
      var s := LinkStep(active, p[0]);
      if s.Some? {
        LinkAfterAppend(s.value, p[1..], q);
      }
    } else {
      assert p + q == q;
    }
  }

  /** Every single frame keeps the link discipline and ends in the state the relay records. */
  lemma StepDiscipline(active: bool, data: seq<byte>)
    requires Step(active, data).Success?
    ensures LinkAfter(active, Step(active, data).value.actions) == Some(Step(active, data).value.active)
  {
    var a := Step(active, data).value.actions;
    var t := PacketTypeOf(TypeField(data)).value;
    if active && t == Disconnect {
      assert a[4..] == [CloseUpstream];
      assert LinkAfter(false, a[4..]) == Some(false);
      assert a[3..] == [CloseDownstream] + a[4..];
      LinkAfterAppend(true, [CloseDownstream], a[4..]);
      assert a[1..] == [ForwardDownstream(data), AwaitDownstream] + a[3..];
      LinkAfterAppend(true, [ForwardDownstream(data), AwaitDownstream], a[3..]);
    } else if active {
      assert a[2..] == [AwaitDownstream];
      assert LinkAfter(true, a[2..]) == Some(true);
      assert a[1..] == [ForwardDownstream(data)] + a[2..];
      LinkAfterAppend(true, [ForwardDownstream(data)], a[2..]);
    } else {
      assert |a| == 2 && a[2..] == [];
      assert LinkAfter(false, a[1..]) == Some(Step(active, data).value.active);
    }
  }

  /** How a connection's session ended: the peer disconnected, or a frame raised. */
  datatype SessionEnd = Disconnected | Crashed(fault: Fault)

  /** One served connection: what the relay did, how it ended, how many frames it handled, and the final link flag. */
  datatype SessionLog = SessionLog(actions: seq<Action>, end: SessionEnd, consumed: nat, active: bool)

  /** The buffer the `k`-th `recv` returns; once the peer has nothing more to send, `recv` returns `b''`. */
  function Received(frames: seq<seq<byte>>, k: nat): (r: seq<byte>)
    ensures k < |frames| ==> r == frames[k]
    ensures |frames| <= k ==> r == []
  {
    if k < |frames| then frames[k] else []
  }

  /**
    The loop does not test for `b''`: once the peer has nothing more to send,
    the next pass raises struct.error in `unpack_packet`, whatever the link flag.
  */
  lemma ClosedPeerRaises(active: bool, frames: seq<seq<byte>>, k: nat)
    requires |frames| <= k
    ensures Step(active, Received(frames, k)) == Failure(MalformedFrame)
  {
  }

  /** `log` preceded by `n` handled frames that produced `prefix`. */
  function After(prefix: seq<Action>, n: nat, log: SessionLog): SessionLog {
    SessionLog(prefix + log.actions, log.end, n + log.consumed, log.active)
  }

  /** The inner loop of `run_server` over the buffers one connection delivers, from link flag `active`. */
  function Session(active: bool, frames: seq<seq<byte>>): (log: SessionLog)
    ensures log.consumed <= |frames|
    decreases |frames|
  {
    match Step(active, Received(frames, 0))
    case Failure(f) => SessionLog([], Crashed(f), 0, active)
    case Success(o) =>
      if !o.sessionOpen then SessionLog(o.actions, Disconnected, 1, o.active)
      else After(o.actions, 1, Session(o.active, frames[1..]))
  }

  /** A frame that steps without ending the session is followed by the session over the remaining buffers. */
  lemma SessionContinues(active: bool, frames: seq<seq<byte>>, o: Outcome)
    requires Step(active, Received(frames, 0)) == Success(o) && o.sessionOpen
    ensures |frames| > 0
    ensures Session(active, frames) == After(o.actions, 1, Session(o.active, frames[1..]))
  {
  }

  lemma AfterAfter(p: seq<Action>, n: nat, q: seq<Action>, m: nat, log: SessionLog)
    ensures After(p, n, After(q, m, log)) == After(p + q, n + m, log)
  {
    assert p + (q + log.actions) == (p + q) + log.actions;
  }

  /** A DISCONNECT frame ends the session after its own actions. */
  lemma SessionEnds(active: bool, frames: seq<seq<byte>>, o: Outcome)
    requires Step(active, Received(frames, 0)) == Success(o) && !o.sessionOpen
    ensures Session(active, frames) == SessionLog(o.actions, Disconnected, 1, o.active)
  {
  }

  /** A frame that raises ends the session with nothing done for it. */
  lemma SessionCrashes(active: bool, frames: seq<seq<byte>>)
    requires Step(active, Received(frames, 0)).Failure?
    ensures Session(active, frames) == SessionLog([], Crashed(Step(active, Received(frames, 0)).error), 0, active)
  {
  }

  /**
    Serving one accepted connection, as the inner `while do_conn` loop does
    it: the link flag starts false and the loop runs until a DISCONNECT
    frame or an exception.
  */
  method ServeConnection(frames: seq<seq<byte>>) returns (log: SessionLog)
    ensures log == Session(false, frames)
  {
    var active := false;
    var actions: seq<Action> := [];
    var i := 0;
    var open := true;
    log := SessionLog([], Disconnected, 0, false);
    while open
      invariant 0 <= i <= |frames|
      invariant open ==> Session(false, frames) == After(actions, i, Session(active, frames[i..]))
      invariant !open ==> log == Session(false, frames)
      decreases |frames| - i, open
    {
      var data := Received(frames, i);
      assert Received(frames[i..], 0) == data;
      var r := Step(active, data);
      if r.Failure? {
        SessionCrashes(active, frames[i..]);
        log := SessionLog(actions, Crashed(r.error), i, active);
        open := false;
      } else {
        var o := r.value;
        if !o.sessionOpen {
          SessionEnds(active, frames[i..], o);
          log := SessionLog(actions + o.actions, Disconnected, i + 1, o.active);
          open := false;
        } else {
          SessionContinues(active, frames[i..], o);
          assert frames[i..][1..] == frames[i + 1..];
          AfterAfter(actions, i, o.actions, 1, Session(o.active, frames[i + 1..]));
          actions := actions + o.actions;
          active := o.active;
          i := i + 1;
        }
      }
    }
  }

  /** The echoed frames, in the order the actions echo them. */
  function Echoed(actions: seq<Action>): seq<seq<byte>> {
    if actions == [] then []
    else (if actions[0].EchoUpstream? then [actions[0].frame] else []) + Echoed(actions[1..])
  }

  lemma {:induction false} EchoedAppend(p: seq<Action>, q: seq<Action>)
    ensures Echoed(p + q) == Echoed(p) + Echoed(q)
    decreases |p|
  {
    if p != [] {
      assert (p + q)[1..] == p[1..] + q;
      EchoedAppend(p[1..], q);
    } else {
      assert p + q == q;
    }
  }

  lemma PrefixOfTail<T>(s: seq<T>, n: nat)
    requires n < |s|
    ensures s[..1 + n] == [s[0]] + s[1..][..n]
  {
  }

  /** A frame that steps is echoed exactly once. */
  lemma StepEchoesOnce(active: bool, data: seq<byte>)
    requires Step(active, data).Success?
    ensures Echoed(Step(active, data).value.actions) == [data]
  {
    var f := UnpackPacket(data).value;
    var acts := Step(active, data).value.actions;
    DispatchShape(active, data, DecodeAscii(f.ip).value, f.port, PacketTypeOf(f.ptype).value, DecodeAscii(f.message).value);
    assert acts == [acts[0]] + acts[1..];
    EchoedAppend([acts[0]], acts[1..]);
    EchoedNone(acts[1..]);
  }

  /** Each handled frame is echoed upstream exactly once, unchanged and in arrival order. */
  lemma {:induction false} SessionEchoes(active: bool, frames: seq<seq<byte>>)
    ensures Echoed(Session(active, frames).actions) == frames[..Session(active, frames).consumed]
    decreases |frames|
  {
    var data := Received(frames, 0);
    var r := Step(active, data);
    if r.Success? {
      var o := r.value;
      StepEchoesOnce(active, data);
      if o.sessionOpen {
        SessionContinues(active, frames, o);
        var rest := Session(o.active, frames[1..]);
        SessionEchoes(o.active, frames[1..]);
        EchoedAppend(o.actions, rest.actions);
        PrefixOfTail(frames, rest.consumed);
      } else {
        SessionEnds(active, frames, o);
      }
    } else {
      SessionCrashes(active, frames);
    }
  }


  lemma {:induction false} EchoedNone(actions: seq<Action>)
    requires forall k :: 0 <= k < |actions| ==> !actions[k].EchoUpstream?
    ensures Echoed(actions) == []
    decreases |actions|
  {
    if actions != [] {
      EchoedNone(actions[1..]);
    }
  }

  /** Over a whole connection the link discipline holds, and the relay's final link flag is the one the actions leave. */
  lemma {:induction false} SessionLinks(active: bool, frames: seq<seq<byte>>)
    ensures LinkAfter(active, Session(active, frames).actions) == Some(Session(active, frames).active)
    decreases |frames|
  {
    var r := Step(active, Received(frames, 0));
    if r.Success? {
      var o := r.value;
      StepDiscipline(active, Received(frames, 0));
      if !o.sessionOpen {
        SessionEnds(active, frames, o);
      } else {
        SessionContinues(active, frames, o);
        var rest := Session(o.active, frames[1..]);
        SessionLinks(o.active, frames[1..]);
        LinkAfterAppend(active, o.actions, rest.actions);
      }
    } else {
      SessionCrashes(active, frames);
    }
  }

  /**
    A session that ends by DISCONNECT ends with the link down and the
    upstream closed last; one that crashes does so at the first buffer that
    does not step, from the link flag the earlier frames left.
  */
  lemma {:induction false} SessionEnding(active: bool, frames: seq<seq<byte>>)
    ensures var log := Session(active, frames);
            && (log.end == Disconnected ==> !log.active && log.actions != [] && log.actions[|log.actions| - 1] == CloseUpstream)
            && (log.end.Crashed? ==> Step(log.active, Received(frames, log.consumed)) == Failure(log.end.fault))
    decreases |frames|
  {
    var r := Step(active, Received(frames, 0));
    if r.Success? {
      var o := r.value;
      if !o.sessionOpen {
        SessionEnds(active, frames, o);
      } else {
        SessionContinues(active, frames, o);
        var rest := Session(o.active, frames[1..]);
        SessionEnding(o.active, frames[1..]);
        assert Received(frames[1..], rest.consumed) == Received(frames, 1 + rest.consumed);
        if rest.end == Disconnected {
          var all := o.actions + rest.actions;
          assert all[|all| - 1] == rest.actions[|rest.actions| - 1];
        }
      }
    } else {
      SessionCrashes(active, frames);
    }
  }

  /**
    The outer `while run_server` loop: connections are accepted one after
    another, each served from a fresh, unlinked state.  Nothing catches an
    exception, so the first crashed session stops the server; the result
    holds one log per connection served.
  */
  method RunServer(connections: seq<seq<seq<byte>>>) returns (logs: seq<SessionLog>)
    ensures |logs| <= |connections|
    ensures forall k :: 0 <= k < |logs| ==> logs[k] == Session(false, connections[k])
    ensures forall k :: 0 <= k < |logs| - 1 ==> logs[k].end == Disconnected
    ensures |logs| < |connections| ==> logs != [] && logs[|logs| - 1].end.Crashed?
  {
    logs := [];
    while |logs| < |connections|
      invariant |logs| <= |connections|
      invariant forall k :: 0 <= k < |logs| ==> logs[k] == Session(false, connections[k])
      invariant forall k :: 0 <= k < |logs| ==> logs[k].end == Disconnected
    {
      var log := ServeConnection(connections[|logs|]);
      logs := logs + [log];
      if log.end.Crashed? {
        return;
      }
    }
  }
}
