/** What the two clients put on the wire in the course of a handshake. */
module Emission {
  import opened BusClients
  import opened Handshakes
  import opened Json
  import opened Protocol
  import opened Session
  import opened Utf8
  import opened Wrappers

  // ---------------------------------------------------------------- the asyncio client never seals a HANDSHAKE

  ghost predicate HandshakesInClear(wire: seq<Frame>) {
    forall i | 0 <= i < |wire| :: wire[i].Sealed? ==> !IsHandshake(wire[i].msg)
  }

  lemma {:induction false} DrainInClear(b: Bus)
    requires HandshakesInClear(b.wire)
    ensures HandshakesInClear(Drain(b).wire)
    decreases |b.tasks|
  {
    if b.tasks != [] { DrainInClear(RunTask(b.(tasks := b.tasks[1..]), b.tasks[0])); }
  }

  /** Only the HELLO that opens a session and messages outside the handshake may be sealed. */
  lemma SealedAreNoHandshake(wire: seq<Frame>, i: nat)
    requires HandshakesInClear(wire) && i < |wire| && wire[i].Sealed?
    ensures wire[i].msg == SessionHello || wire[i].msg.App?
  {
  }

  /** In every run, with every interleaving of handlers and queued sends. */
  lemma {:induction false} AsyncNeverSealsHandshake(c: Config, s: Client, es: seq<Event>)
    requires c.mode.Async? && HandshakesInClear(s.bus.wire)
    ensures HandshakesInClear(After(c, s, es).bus.wire)
    decreases es
  {
    if es != [] {
      hide Drain, HandshakesInClear, HandleHandshake, HandleHello, StartHandshake;
      if es[0].Turn? { DrainInClear(s.bus); } else { StepExtends(c, s, es[0]); }
      AsyncNeverSealsHandshake(c, Step(c, s, es[0]), es[1..]);
    }
  }

  // ---------------------------------------------------------------- what is written stays written

  lemma {:induction false} DrainExtends(b: Bus)
    ensures b.wire <= Drain(b).wire
    decreases |b.tasks|
  {
    if b.tasks != [] { DrainExtends(RunTask(b.(tasks := b.tasks[1..]), b.tasks[0])); }
  }

  /** Handlers add to the wire; on the asyncio client only the loop does. */
  predicate Extends(c: Config, s: Client, s': Client) {
    && s.bus.wire <= s'.bus.wire
    && (c.mode.Async? ==> s'.bus.wire == s.bus.wire && s'.bus.closing == s.bus.closing)
  }

  lemma StartExtends(c: Config, s: Client, payload: seq<Field>, ephemeral: nat)
    ensures Extends(c, s, StartNoise(c, s, payload, ephemeral))
  {
    hide Selection, OfferOf, Begin, Written, Saw, NoisePayload, Pinned;
  }

  lemma CompleteExtends(c: Config, s: Client, payload: seq<byte>)
    requires s.handshake.Some?
    ensures Extends(c, s, Complete(c, s, payload))
  {
    hide Finished, Readable, Pinned, PinId, RemoteOf;
  }

  lemma ReceiveExtends(c: Config, s: Client, payload: seq<Field>, ephemeral: nat)
    requires s.handshake.Some?
    ensures Extends(c, s, ReceiveNoise(c, s, payload, ephemeral))
  {
    hide PacketOf, Read, Written, Complete, Finished;
    var p := PacketOf(c, payload);
    if p.Some? && Read(s.handshake.value, p.value).Some? {
      CompleteExtends(c, Reply(c, s, Read(s.handshake.value, p.value).value, ephemeral), p.value.payload);
    }
  }

  lemma ParamsExtends(c: Config, s: Client, payload: seq<Field>, ephemeral: nat)
    ensures Extends(c, s, ReceiveParams(c, s, payload, ephemeral))
  {
    hide ShouldUseNoise, StartNoise, Get, HasKey, Truthy;
    StartExtends(c, s.(binarize := if HasKey(payload, "binarize") then Get(payload, "binarize") else Bool(false),
                       params := Some(Obj(payload))), payload, ephemeral);
  }

  lemma StepExtends(c: Config, s: Client, e: Event)
    requires !e.Turn?
    ensures Extends(c, s, Step(c, s, e))
  {
    hide ReceiveNoise, ReceiveParams, StartNoise, ShouldUseNoise, Get, HasKey, Truthy, Drain;
    match e
    case Shake(fields, ephemeral) =>
      if s.handshake.Some? { ReceiveExtends(c, s, fields, ephemeral); }
      ParamsExtends(c, s, fields, ephemeral);
    case Retry(ephemeral) =>
      if s.params.Some? && s.params.value.Obj? { StartExtends(c, s, s.params.value.fields, ephemeral); }
    case _ =>
  }

  lemma StepGrows(c: Config, s: Client, e: Event)
    ensures s.bus.wire <= Step(c, s, e).bus.wire
  {
    hide HandleHello, HandleHandshake, StartHandshake, Drain;
    if e.Turn? { DrainExtends(s.bus); } else { StepExtends(c, s, e); }
  }

  lemma {:induction false} RunExtends(c: Config, s: Client, es: seq<Event>)
    ensures s.bus.wire <= After(c, s, es).bus.wire
    decreases es
  {
    hide Step;
    if es != [] {
      StepGrows(c, s, es[0]);
      RunExtends(c, Step(c, s, es[0]), es[1..]);
    }
  }

  // ---------------------------------------------------------------- HELLO comes first

  function On(mode: Mode, c: Config): Config { c.(mode := mode) }

  lemma DrainFirst(b: Bus, t: Task, rest: seq<Task>)
    requires b.tasks == [t] + rest
    ensures Drain(b) == Drain(RunTask(b.(tasks := rest), t))
  {
    assert b.tasks[1..] == rest;
  }

  lemma DrainSend(b: Bus, m: Msg)
    requires b.tasks == [EmitTask(m)]
    ensures Drain(b) == SendAsync(b.(tasks := []), m)
  {
    DrainFirst(b, EmitTask(m), []);
  }

  function EmitTasks(ms: seq<Msg>): (r: seq<Task>)
    ensures |r| == |ms|
  {
    seq(|ms|, i requires 0 <= i < |ms| => EmitTask(ms[i]))
  }

  /** How many of the messages an asyncio client seals while a transport is set. */
  function Sealable(ms: seq<Msg>): nat {
    if ms == [] then 0 else (if IsHandshake(ms[0]) then 0 else 1) + Sealable(ms[1..])
  }

  /** Queued sends take one nonce each, HANDSHAKE none. */
  lemma {:induction false} DrainCounts(b: Bus, ms: seq<Msg>, last: Msg)
    requires b.transport.Some? && b.tasks == EmitTasks(ms) + [EmitTask(last)] && !IsHandshake(last)
    ensures var t := b.transport.value;
            var w := Drain(b).wire;
            w != [] && w[|w| - 1] == Sealed(t.transcript, t.sendNonce + Sealable(ms), last)
    decreases ms
  {
    if ms == [] {
      assert b.tasks == [EmitTask(last)];
      DrainSend(b, last);
    } else {
      var rest := EmitTasks(ms[1..]) + [EmitTask(last)];
      assert EmitTasks(ms)[0] == EmitTask(ms[0]);
      assert EmitTasks(ms)[1..] == EmitTasks(ms[1..]);
      assert b.tasks == [EmitTask(ms[0])] + rest;
      DrainFirst(b, EmitTask(ms[0]), rest);
      DrainCounts(RunTask(b.(tasks := rest), EmitTask(ms[0])), ms[1..], last);
    }
  }

  /**
   HELLO is the first sealed frame, at nonce 0, on the threading client; on the asyncio client, whose transport
   is in place before its queued sends run, its nonce is the number of other messages still queued.
   */
  lemma HelloNonce(c: Config, s: Client, t: BusClients.Session, pending: seq<Msg>)
    requires t.sendNonce == 0 && s.bus.tasks == EmitTasks(pending)
    ensures var x, y := Install(On(Sync, c), s, t), Install(On(Async, c), s, t);
            var w := TakeTurn(Async, y.bus).wire;
            && x.bus.wire == s.bus.wire + [Sealed(t.transcript, 0, SessionHello)]
            && w != [] && w[|w| - 1] == Sealed(t.transcript, Sealable(pending), SessionHello)
  {
    hide Drain, Sealable;
    DrainCounts(Install(On(Async, c), s, t).bus, pending, SessionHello);
  }
}
