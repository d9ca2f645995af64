/** The two websocket clients: what they put on the socket, and what closing does to their session. */
module BusClients {
  import opened Handshakes
  import opened Json
  import opened Wrappers

  /** The threading client sends at once; the asyncio client queues sends and closes for its loop. */
  datatype Mode = Sync | Async

  /** What a client sends; everything outside the handshake is App. */
  datatype Msg =
    | NoiseOffer(pattern: string, suite: string, packet: Packet)
    | NoiseReply(packet: Packet)
    | LegacyOffer(binarize: Json, withPassword: bool)
    | SessionHello
    | App(id: nat)

  predicate IsHandshake(m: Msg) { m.NoiseOffer? || m.NoiseReply? || m.LegacyOffer? }

  /** A Noise transport, named by the handshake that made it. */
  datatype Session = Session(transcript: seq<Packet>, remoteKey: Option<string>, sendNonce: nat)

  /** What is put on the socket. */
  datatype Frame =
    | Clear(msg: Msg)
    | Legacy(key: nat, msg: Msg)
    | Sealed(transcript: seq<Packet>, nonce: nat, msg: Msg)
    | CloseFrame

  datatype Task = EmitTask(msg: Msg) | CloseTask

  /** Connection and session state, the queue of the asyncio loop, and everything sent so far. */
  datatype Bus = Bus(connected: bool, established: bool, cryptoKey: Option<nat>, transport: Option<Session>,
                     closing: bool, tasks: seq<Task>, wire: seq<Frame>)

  function SendPlain(b: Bus, m: Msg): Bus {
    b.(wire := b.wire + [if b.cryptoKey.Some? then Legacy(b.cryptoKey.value, m) else Clear(m)])
  }

  function SendSealed(b: Bus, m: Msg): Bus
    requires b.transport.Some?
  {
    var t := b.transport.value;
    b.(wire := b.wire + [Sealed(t.transcript, t.sendNonce, m)], transport := Some(t.(sendNonce := t.sendNonce + 1)))
  }

  /** The threading client seals whatever it sends while a transport is set. */
  function SendSync(b: Bus, m: Msg): Bus { if b.transport.Some? then SendSealed(b, m) else SendPlain(b, m) }

  /** The asyncio client never seals a HANDSHAKE. */
  function SendAsync(b: Bus, m: Msg): Bus {
    if b.transport.Some? && !IsHandshake(m) then SendSealed(b, m) else SendPlain(b, m)
  }

  function Emit(mode: Mode, b: Bus, m: Msg): Bus {
    match mode
    case Sync => SendSync(b, m)
    case Async => b.(tasks := b.tasks + [EmitTask(m)])
  }

  /** on_close and on_error of the threading client. */
  function OnClose(b: Bus): Bus {
    b.(connected := false, established := false, cryptoKey := None, transport := None, closing := false)
  }

  /** What close of the asyncio client resets, and its receive loop when it ends with an exception. */
  function AsyncClose(b: Bus): Bus {
    b.(established := false, cryptoKey := None, transport := None, connected := false)
  }

  /** The asyncio client's close: its fields, then the socket. */
  function CloseSocket(b: Bus): Bus { AsyncClose(b).(wire := b.wire + [CloseFrame]) }

  /** The threading client's socket says goodbye at once; its fields are reset when on_close is called. */
  function RequestClose(mode: Mode, b: Bus): Bus {
    match mode
    case Sync => b.(closing := true, wire := b.wire + [CloseFrame])
    case Async => b.(tasks := b.tasks + [CloseTask])
  }

  function RunTask(b: Bus, t: Task): Bus {
    match t
    case EmitTask(m) => SendAsync(b, m)
    case CloseTask => CloseSocket(b)
  }

  /** The loop runs queued tasks first in, first out. */
  function Drain(b: Bus): (r: Bus)
    ensures r.tasks == []
    decreases |b.tasks|
  {
    if b.tasks == [] then b else Drain(RunTask(b.(tasks := b.tasks[1..]), b.tasks[0]))
  }

  /** How the asyncio receive loop ends: its iteration runs out, it is cancelled, or it raises. */
  datatype LoopEnd = Exhausted | Cancelled | Raised

  function EndLoop(b: Bus, how: LoopEnd): Bus { if how.Raised? then AsyncClose(b) else b }

  /** HiveMessageBusClient and AsyncHiveMessageBusClient. */
  class BusClient {
    const mode: Mode
    var connected: bool
    var established: bool
    var cryptoKey: Option<nat>
    var transport: Option<Session>
    var closing: bool
    var tasks: seq<Task>
    var wire: seq<Frame>

    function State(): Bus
      reads this
    {
      Bus(connected, established, cryptoKey, transport, closing, tasks, wire)
    }

    constructor (mode: Mode, cryptoKey: Option<nat>)
      ensures this.mode == mode && State() == Bus(false, false, cryptoKey, None, false, [], [])
    {
      this.mode, this.cryptoKey := mode, cryptoKey;
      connected, established, transport, closing, tasks, wire := false, false, None, false, [], [];
    }

    method OnOpen()
      modifies this
      ensures State() == old(State()).(connected := true)
    {
      connected := true;
    }

    /** The part of both emits behind the choice of framing. */
    method Send(m: Msg)
      modifies this
      ensures State() == if mode == Sync then SendSync(old(State()), m) else SendAsync(old(State()), m)
    {
      var frame := if cryptoKey.Some? then Legacy(cryptoKey.value, m) else Clear(m);
      if transport.Some? && (mode == Sync || !IsHandshake(m)) {
        var t := transport.value;
        frame := Sealed(t.transcript, t.sendNonce, m);
        transport := Some(t.(sendNonce := t.sendNonce + 1));
      }
      wire := wire + [frame];
    }

    /** hm.emit as the protocol calls it: a coroutine is scheduled, not awaited. */
    method EmitMessage(m: Msg)
      modifies this
      ensures State() == Emit(mode, old(State()), m)
    {
      if mode == Async {
        tasks := tasks + [EmitTask(m)];
      } else {
        Send(m);
      }
    }

    method Close()
      modifies this
      ensures State() == RequestClose(mode, old(State()))
    {
      if mode == Async {
        tasks := tasks + [CloseTask];
      } else {
        closing := true;
        wire := wire + [CloseFrame];
      }
    }

    /** on_close; on_error does the same. */
    method HandleClose()
      modifies this
      ensures State() == OnClose(old(State()))
    {
      connected := false;
      established := false;
      cryptoKey := None;
      transport := None;
      closing := false;
    }

    method CloseNow()
      modifies this
      ensures State() == AsyncClose(old(State()))
    {
      established := false;
      cryptoKey := None;
      transport := None;
      connected := false;
    }

    method LoopEnded(how: LoopEnd)
      modifies this
      ensures State() == EndLoop(old(State()), how)
    {
      if how.Raised? { CloseNow(); }
    }

    /** The asyncio loop until nothing is queued. */
    method RunTasks()
      requires mode == Async
      modifies this
      ensures State() == Drain(old(State()))
    {
      while tasks != []
        invariant Drain(State()) == Drain(old(State()))
        decreases |tasks|
      {
        var t := tasks[0];
        tasks := tasks[1..];
        if t.EmitTask? {
          Send(t.msg);
        } else {
          CloseNow();
          wire := wire + [CloseFrame];
        }
      }
    }
  }
}
