/**
 The terminal proxy's relay between one browser socket and one device socket (ttyd). Messages
 from the browser are buffered until the device socket opens, then flushed in order.
 */
module Relay {
  import opened Common

  datatype SocketState = Connecting | Open | Closing | Closed

  datatype Message = Message(data: seq<bv8>, isBinary: bool)

  /** Close codes the relay sends to the browser. */
  const DEVICE_GONE := 1001
  const DEVICE_FAILED := 1011

  /** What the `ws` library reports to the handlers, and the state changes it makes by itself. */
  datatype Event =
    | ClientMessage(msg: Message)
    | DeviceOpen(survives: nat)     // how many sends of the flush find the socket open; see SentThenBufferedIsAll
    | DeviceMessage(msg: Message)
    | DeviceError
    | DeviceClose
    | ClientError
    | ClientClose
    | DeviceLeaves                  // the peer's close frame arrived; no handler runs yet
    | ClientLeaves

  datatype State = State(
    client: SocketState,
    device: SocketState,
    pending: seq<Message>,
    listening: bool,                // the device's message handler is registered
    toDevice: seq<Message>,         // everything sent on the device socket, in order
    toClient: seq<Message>,
    closeCode: int)                 // the code of the first close of the browser socket, or 0

  function Start(): State { State(Open, Connecting, [], false, [], [], 0) }

  /** Events the library can emit in a state: no message on a socket that is not open, one open, no revival. */
  predicate Possible(s: State, e: Event) {
    match e
    case ClientMessage(_) => s.client == Open || s.client == Closing
    case DeviceOpen(_) => s.device == Connecting
    case DeviceMessage(_) => s.device == Open || s.device == Closing
    case DeviceError => true
    case DeviceClose => s.device != Closed
    case ClientError => true
    case ClientClose => s.client != Closed
    case DeviceLeaves => s.device == Open
    case ClientLeaves => s.client == Open
  }

  /** A close the relay asks for, on an open browser socket only. */
  function CloseClient(s: State, code: int): State {
    if s.client == Open then s.(client := Closing, closeCode := code) else s
  }

  function CloseDevice(s: State): State {
    if s.device == Open then s.(device := Closing) else s
  }

  /** One event and its handler. */
  function Step(s: State, e: Event): State {
    if !Possible(s, e) then s
    else
      match e
      case ClientMessage(m) =>
        if s.device == Open then s.(toDevice := s.toDevice + [m]) else s.(pending := s.pending + [m])
      case DeviceOpen(survives) =>
        var k := Min(survives, |s.pending|);
        s.(device := if survives < |s.pending| then Closing else Open,
           toDevice := s.toDevice + s.pending[..k],
           pending := [],
           listening := true)
      case DeviceMessage(m) =>
        if s.listening && s.client == Open then s.(toClient := s.toClient + [m]) else s
      case DeviceError => CloseClient(s, DEVICE_FAILED)
      case DeviceClose => CloseClient(s.(device := Closed), DEVICE_GONE)
      case ClientError => CloseDevice(s)
      case ClientClose => CloseDevice(s.(client := Closed))
      case DeviceLeaves => s.(device := Closing)
      case ClientLeaves => s.(client := Closing)
  }

  function Run(s: State, es: seq<Event>): State {
    if es == [] then s else Step(Run(s, es[..|es| - 1]), es[|es| - 1])
  }

  /** What the browser sent, among the events that were possible when they came. */
  function ClientSent(s: State, es: seq<Event>): seq<Message> {
    if es == [] then []
    else
      var before, e := es[..|es| - 1], es[|es| - 1];
      ClientSent(s, before) + if e.ClientMessage? && Possible(Run(s, before), e) then [e.msg] else []
  }

  function DeviceSent(s: State, es: seq<Event>): seq<Message> {
    if es == [] then []
    else
      var before, e := es[..|es| - 1], es[|es| - 1];
      DeviceSent(s, before) + if e.DeviceMessage? && Possible(Run(s, before), e) then [e.msg] else []
  }

  // ---------------------------------------------------------------- the handlers as written

  class Connection {
    var client: SocketState
    var device: SocketState
    var pending: seq<Message>
    var listening: bool
    var toDevice: seq<Message>
    var toClient: seq<Message>
    var closeCode: int

    constructor ()
      ensures Value() == Start()
      ensures client == Open && device == Connecting && pending == [] && !listening
    {
      client, device, pending, listening := Open, Connecting, [], false;
      toDevice, toClient, closeCode := [], [], 0;
    }

    function Value(): State
      reads this
    {
      State(client, device, pending, listening, toDevice, toClient, closeCode)
    }

    /** Never called unless the device socket is open. */
    method SendToDevice(m: Message)
      requires device == Open
      modifies this`toDevice
      ensures toDevice == old(toDevice) + [m]
    {
      toDevice := toDevice + [m];
    }

    method SendToClient(m: Message)
      requires client == Open
      modifies this`toClient
      ensures toClient == old(toClient) + [m]
    {
      toClient := toClient + [m];
    }

    method OnClientMessage(m: Message)
      requires Possible(Value(), ClientMessage(m))
      modifies this
      ensures Value() == Step(old(Value()), ClientMessage(m))
      ensures old(device) == Open ==> toDevice == old(toDevice) + [m] && pending == old(pending)
      ensures old(device) != Open ==> pending == old(pending) + [m] && toDevice == old(toDevice)
    {
      if device == Open {
        SendToDevice(m);
      } else {
        pending := pending + [m];
      }
    }

    /** The flush, with its test before each send. */
    method OnDeviceOpen(survives: nat)
      requires Possible(Value(), DeviceOpen(survives))
      modifies this
      ensures Value() == Step(old(Value()), DeviceOpen(survives))
      ensures survives >= |old(pending)| ==> device == Open && toDevice == old(toDevice) + old(pending)
      ensures survives < |old(pending)| ==> device == Closing && toDevice == old(toDevice) + old(pending)[..survives]
      ensures pending == [] && listening
    {
      device := Open;
      var i := 0;
      while i < |pending|
        invariant 0 <= i <= |pending|
        invariant pending == old(pending) && client == old(client) && closeCode == old(closeCode)
        invariant toClient == old(toClient)
        invariant device == if survives < i then Closing else Open
        invariant toDevice == old(toDevice) + pending[..Min(survives, i)]
      {
        if i == survives {
          device := Closing;
        }
        if device == Open {
          SendToDevice(pending[i]);
          assert pending[..i + 1] == pending[..i] + [pending[i]];
        }
        i := i + 1;
      }
      pending := [];
      listening := true;
    }

    method OnDeviceMessage(m: Message)
      requires Possible(Value(), DeviceMessage(m))
      modifies this
      ensures Value() == Step(old(Value()), DeviceMessage(m))
      ensures toClient == if old(listening) && old(client) == Open then old(toClient) + [m] else old(toClient)
    {
      if listening {
        if client == Open {
          SendToClient(m);
        }
      }
    }

    method OnDeviceClose()
      requires Possible(Value(), DeviceClose)
      modifies this
      ensures Value() == Step(old(Value()), DeviceClose)
      ensures device == Closed
      ensures client == (if old(client) == Open then Closing else old(client))
      ensures closeCode == if old(client) == Open then 1001 else old(closeCode)
    {
      device := Closed;
      if client == Open {
        client, closeCode := Closing, DEVICE_GONE;
      }
    }

    method OnDeviceError()
      modifies this
      ensures Value() == Step(old(Value()), DeviceError)
      ensures device == old(device)
      ensures client == (if old(client) == Open then Closing else old(client))
      ensures closeCode == if old(client) == Open then 1011 else old(closeCode)
    {
      if client == Open {
        client, closeCode := Closing, DEVICE_FAILED;
      }
    }

    method OnClientClose()
      requires Possible(Value(), ClientClose)
      modifies this
      ensures Value() == Step(old(Value()), ClientClose)
      ensures client == Closed && closeCode == old(closeCode)
      ensures device == if old(device) == Open then Closing else old(device)
    {
      client := Closed;
      if device == Open {
        device := Closing;
      }
    }

    method OnClientError()
      modifies this
      ensures Value() == Step(old(Value()), ClientError)
      ensures client == old(client) && closeCode == old(closeCode)
      ensures device == if old(device) == Open then Closing else old(device)
    {
      if device == Open {
        device := Closing;
      }
    }
  }

  // ---------------------------------------------------------------- order and loss

  /** How many buffered messages the flush of a run dropped. */
  function Dropped(s: State, es: seq<Event>): nat {
    if es == [] then 0
    else
      var before, e := es[..|es| - 1], es[|es| - 1];
      var w := Run(s, before);
      Dropped(s, before) + if e.DeviceOpen? && Possible(w, e) then |w.pending| - Min(e.survives, |w.pending|) else 0
  }

  /** The buffer is in use only while the device socket is not open. */
  predicate BufferSound(s: State) {
    && (s.device == Open ==> s.pending == [] && s.listening)
    && (s.device == Connecting ==> !s.listening && s.toDevice == [] && s.toClient == [])
  }

  /**
   Order and conservation towards the device. If the flush dropped nothing, what was sent followed by
   what is buffered is exactly what the browser sent; whatever was dropped, the messages sent are
   a prefix of the browser's, and sent + buffered + dropped account for all of them.
   */
  lemma {:induction false} ToDeviceConserved(es: seq<Event>)
    ensures var s := Run(Start(), es);
            && BufferSound(s)
            && |s.toDevice| + |s.pending| + Dropped(Start(), es) == |ClientSent(Start(), es)|
            && (s.toDevice + s.pending == ClientSent(Start(), es) <==> Dropped(Start(), es) == 0)
            && s.toDevice <= ClientSent(Start(), es)
            && (s.device == Connecting || s.device == Open ==> Dropped(Start(), es) == 0)
  {
    if es != [] {
      var before, e := es[..|es| - 1], es[|es| - 1];
      ToDeviceConserved(before);
      var s, s' := Run(Start(), before), Run(Start(), es);
      if Possible(s, e) {
        if e.ClientMessage? {
          assert s'.toDevice + s'.pending == s.toDevice + s.pending + [e.msg];
        } else if e.DeviceOpen? {
          assert s.toDevice == [];
          if e.survives >= |s.pending| {
            assert s.pending[..|s.pending|] == s.pending;
            assert s'.toDevice + s'.pending == s.toDevice + s.pending;
          }
        }
      }
      assert ClientSent(Start(), es)
          == ClientSent(Start(), before) + if e.ClientMessage? && Possible(s, e) then [e.msg] else [];
    }
  }

  /** Each flush of the run found the device socket open to its end. */
  predicate FlushesComplete(s: State, es: seq<Event>) {
    es == [] ||
    (var before, e := es[..|es| - 1], es[|es| - 1];
     && FlushesComplete(s, before)
     && (e.DeviceOpen? ==> e.survives >= |Run(s, before).pending|))
  }

  lemma {:induction false} CompleteDropsNothing(es: seq<Event>)
    requires FlushesComplete(Start(), es)
    ensures Dropped(Start(), es) == 0
  {
    if es != [] {
      CompleteDropsNothing(es[..|es| - 1]);
    }
  }

  /**
   The relay's law. The flush is one synchronous loop, and nothing in it makes the socket leave the
   open state, so every flush completes; then after every event what was sent on the device socket
   followed by what is buffered is exactly what the browser sent, and nothing is buffered while the
   device socket is open.
   */
  lemma {:induction false} SentThenBufferedIsAll(es: seq<Event>)
    requires FlushesComplete(Start(), es)
    ensures var s := Run(Start(), es);
            s.toDevice + s.pending == ClientSent(Start(), es) && (s.device == Open ==> s.pending == [])
  {
    CompleteDropsNothing(es);
    ToDeviceConserved(es);
  }

  /**
   What the test inside the flush loop would cost if the socket did leave the open state there:
   the messages it skips are lost, as the buffer is emptied all the same.
   */
  lemma FlushDropsIff(es: seq<Event>, survives: nat)
    requires Run(Start(), es).device == Connecting
    ensures var all := es + [DeviceOpen(survives)];
            Run(Start(), all).toDevice == ClientSent(Start(), all) <==> survives >= |Run(Start(), es).pending|
  {
    var all := es + [DeviceOpen(survives)];
    assert all[..|all| - 1] == es;
    ToDeviceConserved(es);
    var s := Run(Start(), es);
    ConnectingDroppedNothing(es);
    assert s.toDevice + s.pending == s.pending;
    assert ClientSent(Start(), all) == s.pending;
    assert Run(Start(), all).toDevice == s.pending[..Min(survives, |s.pending|)];
  }

  lemma {:induction false} ConnectingDroppedNothing(es: seq<Event>)
    requires Run(Start(), es).device == Connecting
    ensures Dropped(Start(), es) == 0
  {
    if es != [] {
      SocketsMoveForward(Run(Start(), es[..|es| - 1]), es[|es| - 1]);
      ConnectingDroppedNothing(es[..|es| - 1]);
    }
  }

  /** Towards the browser: it gets a prefix of what the device sent, all of it while its socket is open. */
  lemma {:induction false} ToClientPrefix(es: seq<Event>)
    ensures var s := Run(Start(), es);
            && s.toClient <= DeviceSent(Start(), es)
            && (s.client == Open ==> s.toClient == DeviceSent(Start(), es))
            && (s.device == Open || s.device == Closing ==> s.listening)
  {
    if es != [] {
      ToClientPrefix(es[..|es| - 1]);
    }
  }

  // ---------------------------------------------------------------- tear-down

  /** The handlers never send on, and never close, a socket that is not open, and sockets only move forward. */
  function Age(x: SocketState): nat {
    match x
    case Connecting => 0
    case Open => 1
    case Closing => 2
    case Closed => 3
  }

  lemma SocketsMoveForward(s: State, e: Event)
    ensures Age(s.client) <= Age(Step(s, e).client) && Age(s.device) <= Age(Step(s, e).device)
    ensures Step(s, e).toDevice != s.toDevice ==> s.device == Open || (s.device == Connecting && e.DeviceOpen?)
    ensures Step(s, e).toClient != s.toClient ==> s.client == Open
    ensures s.client != Open ==> Step(s, e).closeCode == s.closeCode
  {
  }

  lemma {:induction false} RunMovesForward(s: State, es: seq<Event>)
    ensures Age(s.client) <= Age(Run(s, es).client) && Age(s.device) <= Age(Run(s, es).device)
  {
    if es != [] {
      RunMovesForward(s, es[..|es| - 1]);
      SocketsMoveForward(Run(s, es[..|es| - 1]), es[|es| - 1]);
    }
  }

  /** After the device side ends, the browser socket is never open again. */
  lemma {:induction false} DeviceEndClosesClient(s: State, e: Event, es: seq<Event>)
    requires (e.DeviceClose? || e.DeviceError?) && Possible(s, e) && s.client != Connecting
    ensures Run(Step(s, e), es).client != Open
  {
    RunMovesForward(Step(s, e), es);
  }

  predicate DeviceOpenAfter(s: State, es: seq<Event>) { Run(s, es).device == Open }

  /**
   The other direction is not symmetric: after the browser side ends, the device socket can still
   become open in some continuation iff it was connecting at that moment, because the handlers
   close only an open one.
   */
  lemma ClientEndLeavesDeviceIff(s: State, e: Event)
    requires (e.ClientClose? || e.ClientError?) && Possible(s, e)
    ensures (exists es :: DeviceOpenAfter(Step(s, e), es)) <==> s.device == Connecting
  {
    var s' := Step(s, e);
    if s.device == Connecting {
      var es := [DeviceOpen(|s'.pending|)];
      assert es[..0] == [] && Run(s', es[..0]) == s';
      assert DeviceOpenAfter(s', es);
    } else {
      forall es ensures !DeviceOpenAfter(s', es) {
        RunMovesForward(s', es);
      }
    }
  }
}
