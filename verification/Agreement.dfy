/**
 Both ends of a handshake over a network that delivers, drops, repeats, reorders and forges: what the client
 holds when it has finished is what a responder holding the same password sent.
 */
module Agreement {
  import opened BusClients
  import opened Handshakes
  import opened Json
  import opened Noise
  import opened Protocol
  import opened Session
  import opened Utf8
  import opened Wrappers

  // ---------------------------------------------------------------- what a client has written

  function PacketsIn(m: Msg): set<Packet> { if m.NoiseOffer? || m.NoiseReply? then {m.packet} else {} }

  function PacketsOf(f: Frame): set<Packet> { if f.CloseFrame? then {} else PacketsIn(f.msg) }

  ghost predicate OnWire(b: Bus, p: Packet) { exists i :: 0 <= i < |b.wire| && p in PacketsOf(b.wire[i]) }

  ghost predicate IsQueued(b: Bus, p: Packet) {
    exists i :: 0 <= i < |b.tasks| && b.tasks[i].EmitTask? && p in PacketsIn(b.tasks[i].msg)
  }

  /** Handshake messages sent or waiting to be sent. */
  ghost predicate Wrote(b: Bus, p: Packet) { OnWire(b, p) || IsQueued(b, p) }

  lemma AppendedFrame(b: Bus, b': Bus, f: Frame, p: Packet)
    requires b'.wire == b.wire + [f]
    ensures OnWire(b', p) <==> OnWire(b, p) || p in PacketsOf(f)
  {
    hide PacketsOf;
    if OnWire(b, p) {
      var i :| 0 <= i < |b.wire| && p in PacketsOf(b.wire[i]);
      assert b'.wire[i] == b.wire[i];
    }
    assert b'.wire[|b.wire|] == f;
    if OnWire(b', p) {
      var i :| 0 <= i < |b'.wire| && p in PacketsOf(b'.wire[i]);
      assert i < |b.wire| ==> b.wire[i] == b'.wire[i];
    }
  }

  lemma AppendedTask(b: Bus, b': Bus, t: Task, p: Packet)
    requires b'.tasks == b.tasks + [t]
    ensures IsQueued(b', p) <==> IsQueued(b, p) || (t.EmitTask? && p in PacketsIn(t.msg))
  {
    hide PacketsIn;
    if IsQueued(b, p) {
      var i :| 0 <= i < |b.tasks| && b.tasks[i].EmitTask? && p in PacketsIn(b.tasks[i].msg);
      assert b'.tasks[i] == b.tasks[i];
    }
    assert b'.tasks[|b.tasks|] == t;
    if IsQueued(b', p) {
      var i :| 0 <= i < |b'.tasks| && b'.tasks[i].EmitTask? && p in PacketsIn(b'.tasks[i].msg);
      assert i < |b.tasks| ==> b.tasks[i] == b'.tasks[i];
    }
  }

  lemma EmitWrites(mode: Mode, b: Bus, m: Msg, p: Packet)
    ensures Wrote(Emit(mode, b, m), p) <==> Wrote(b, p) || p in PacketsIn(m)
  {
    hide PacketsIn, OnWire, IsQueued;
    var b' := Emit(mode, b, m);
    if mode.Sync? {
      var f := b'.wire[|b.wire|];
      AppendedFrame(b, b', f, p);
      assert IsQueued(b', p) == IsQueued(b, p) by { SameTasks(b, b', p); }
    } else {
      AppendedTask(b, b', EmitTask(m), p);
      assert OnWire(b', p) == OnWire(b, p) by { SameWire(b, b', p); }
    }
  }

  lemma SameTasks(b: Bus, b': Bus, p: Packet)
    requires b'.tasks == b.tasks
    ensures IsQueued(b', p) == IsQueued(b, p)
  {
  }

  lemma SameWire(b: Bus, b': Bus, p: Packet)
    requires b'.wire == b.wire
    ensures OnWire(b', p) == OnWire(b, p)
  {
  }

  /** A state whose wire and queue are another's has written the same. */
  lemma SameWritten(b: Bus, b': Bus, p: Packet)
    requires b'.wire == b.wire && b'.tasks == b.tasks
    ensures Wrote(b', p) == Wrote(b, p)
  {
  }

  lemma RequestWrites(mode: Mode, b: Bus, p: Packet)
    ensures Wrote(RequestClose(mode, b), p) == Wrote(b, p)
  {
    hide OnWire, IsQueued;
    var b' := RequestClose(mode, b);
    if mode.Sync? {
      SameTasks(b, b', p);
      AppendedFrame(b, b', CloseFrame, p);
    } else {
      SameWire(b, b', p);
      AppendedTask(b, b', CloseTask, p);
    }
  }

  lemma RunTaskWrites(b: Bus, p: Packet)
    requires b.tasks != []
    ensures Wrote(RunTask(b.(tasks := b.tasks[1..]), b.tasks[0]), p) == Wrote(b, p)
  {
    hide PacketsIn, OnWire, IsQueued;
    var rest := b.(tasks := b.tasks[1..]);
    var b' := RunTask(rest, b.tasks[0]);
    SameWire(b, rest, p);
    QueueHead(b, p);
    SameTasks(rest, b', p);
    if b.tasks[0].EmitTask? {
      AppendedFrame(rest, b', b'.wire[|b.wire|], p);
    } else {
      AppendedFrame(rest, b', CloseFrame, p);
    }
  }

  lemma QueueHead(b: Bus, p: Packet)
    requires b.tasks != []
    ensures IsQueued(b, p) <==> IsQueued(b.(tasks := b.tasks[1..]), p)
                                || (b.tasks[0].EmitTask? && p in PacketsIn(b.tasks[0].msg))
  {
    hide PacketsIn;
    var rest := b.tasks[1..];
    assert forall i | 0 <= i < |rest| :: rest[i] == b.tasks[i + 1];
    if IsQueued(b, p) {
      var i :| 0 <= i < |b.tasks| && b.tasks[i].EmitTask? && p in PacketsIn(b.tasks[i].msg);
      assert i > 0 ==> rest[i - 1] == b.tasks[i];
    }
  }

  /** The loop sends what was queued: no message is lost, none invented. */
  lemma {:induction false} DrainWrites(b: Bus, p: Packet)
    ensures Wrote(Drain(b), p) == Wrote(b, p)
    decreases |b.tasks|
  {
    hide RunTask, Wrote;
    if b.tasks != [] {
      RunTaskWrites(b, p);
      assert RunTask(b.(tasks := b.tasks[1..]), b.tasks[0]).tasks == b.tasks[1..] by { RunTaskQueue(b); }
      DrainWrites(RunTask(b.(tasks := b.tasks[1..]), b.tasks[0]), p);
    }
  }

  lemma RunTaskQueue(b: Bus)
    requires b.tasks != []
    ensures RunTask(b.(tasks := b.tasks[1..]), b.tasks[0]).tasks == b.tasks[1..]
  {
  }

  // ---------------------------------------------------------------- the world

  /** A handshake message an honest party has written, and what that party took the negotiation to be. */
  datatype Entry = Entry(packet: Packet, initiator: bool, offer: Offer)

  /** A handshake one side has completed. */
  datatype Done = Done(transcript: seq<Packet>, offer: Offer)

  datatype Responder = Responder(offer: Offer, handshake: Handshake)

  /**
   begun is what the client bound when it last started a handshake; satellites are handshakes of others that share
   the password, waiting for their second message. All but the client and what it has begun only grows.
   */
  datatype World = World(client: Client, begun: Option<Offer>, log: iset<Entry>, responders: iset<Responder>,
                         satellites: iset<Responder>, clientDone: iset<Done>, responderDone: iset<Done>)

  /**
   A step of the client; a responder that knows the password answering a first message under parameters of its
   own; a responder reading a third message; another satellite with the password starting a handshake of its own,
   and going on with it.
   */
  datatype WorldEvent =
    | AtClient(e: Event)
    | Respond(o: Offer, nodeId: string, ownKey: string, remoteKey: Option<string>, p: Packet, payload: seq<byte>,
              ephemeral: nat)
    | Conclude(r: Responder, p: Packet)
    | Start(o: Offer, nodeId: string, ownKey: string, remoteKey: Option<string>, payload: seq<byte>, ephemeral: nat)
    | GoOn(r: Responder, p: Packet, ephemeral: nat)

  /** What the network can deliver: what was written, and all that can be made without the password. */
  ghost predicate Deliverable(c: Config, w: World, p: Packet) {
    || (exists e :: e in w.log && e.packet == p)
    || p.auth.psk.None? || p.auth.psk.value.password != c.password
  }

  ghost predicate Possible(c: Config, w: World, e: WorldEvent) {
    match e
    case AtClient(Hello(fields)) => Valid(Obj(fields))
    case AtClient(Shake(fields, _)) =>
      Valid(Obj(fields)) && (PacketOf(c, fields).Some? ==> Deliverable(c, w, PacketOf(c, fields).value))
    case AtClient(Send(msg)) => msg.App?
    case AtClient(_) => true
    case Respond(o, _, _, _, p, _, _) => WellFormed(o) && Deliverable(c, w, p)
    case Conclude(r, p) => r in w.responders && Deliverable(c, w, p)
    case Start(o, _, _, _, _, _) => WellFormed(o)
    case GoOn(r, p, _) => r in w.satellites && Deliverable(c, w, p)
  }

  /** What a handshake started in this state is bound to. */
  function OfferNow(c: Config, s: Client): Offer {
    if s.params.Some? && s.params.value.Obj? && Selection(c, s, s.params.value.fields).Some? then
      OfferOf(s, s.params.value.fields, Selection(c, s, s.params.value.fields).value)
    else Offer(Null, Null, "", "")
  }

  ghost function ClientStep(c: Config, w: World, e: Event): World {
    var s := Step(c, w.client, e);
    var begun := if w.client.handshake.None? && s.handshake.Some? then Some(OfferNow(c, s)) else w.begun;
    w.(client := s, begun := begun,
       log := w.log + iset p | begun.Some? && Wrote(s.bus, p) && !Wrote(w.client.bus, p) :: Entry(p, true, begun.value),
       clientDone := w.clientDone
         + iset o | Some(o) == begun && w.client.handshake.Some? && s.handshake.None? && s.bus.transport.Some?
             :: Done(s.bus.transport.value.transcript, o))
  }

  function Answer(c: Config, o: Offer, nodeId: string, ownKey: string, remoteKey: Option<string>, p: Packet,
                  payload: seq<byte>, ephemeral: nat): Option<Handshake>
  {
    var h :- Read(Begin(false, o, Psk(c.password, nodeId), ownKey, remoteKey), p);
    Some(Saw(h, Written(h, payload, ephemeral)))
  }

  ghost function WorldStep(c: Config, w: World, e: WorldEvent): World {
    match e
    case AtClient(ce) => ClientStep(c, w, ce)
    case Respond(o, nodeId, ownKey, remoteKey, p, payload, ephemeral) =>
      (match Answer(c, o, nodeId, ownKey, remoteKey, p, payload, ephemeral)
       case None => w
       case Some(h) =>
         w.(responders := w.responders + iset{Responder(o, h)},
            log := w.log + iset{Entry(h.seen[|h.seen| - 1], false, o)},
            responderDone := if Finished(h) then w.responderDone + iset{Done(h.seen, o)} else w.responderDone))
    case Conclude(r, p) =>
      (match Read(r.handshake, p)
       case None => w
       case Some(h) =>
         if Finished(h) then w.(responderDone := w.responderDone + iset{Done(h.seen, r.offer)}) else w)
    case Start(o, nodeId, ownKey, remoteKey, payload, ephemeral) =>
      var h := Begin(true, o, Psk(c.password, nodeId), ownKey, remoteKey);
      var msg1 := Written(h, payload, ephemeral);
      w.(satellites := w.satellites + iset{Responder(o, Saw(h, msg1))}, log := w.log + iset{Entry(msg1, true, o)})
    case GoOn(r, p, ephemeral) =>
      (match Read(r.handshake, p)
       case None => w
       case Some(h) =>
         if Finished(h) then w else w.(log := w.log + iset{Entry(Written(h, [], ephemeral), true, r.offer)}))
  }

  ghost predicate WorldRun(c: Config, w: World, es: seq<WorldEvent>)
    decreases es
  {
    es == [] || (Possible(c, w, es[0]) && WorldRun(c, WorldStep(c, w, es[0]), es[1..]))
  }

  ghost function WorldAfter(c: Config, w: World, es: seq<WorldEvent>): World
    decreases es
  {
    if es == [] then w else WorldAfter(c, WorldStep(c, w, es[0]), es[1..])
  }

  /** Nothing has happened yet. */
  ghost predicate Initial(w: World) {
    && w.client.handshake.None? && w.client.hello.None? && w.client.params.None? && w.begun.None?
    && w.log == iset{} && w.responders == iset{} && w.satellites == iset{} && w.clientDone == iset{}
        && w.responderDone == iset{}
  }

  // ---------------------------------------------------------------- what every step keeps

  /** The handshake is bound to the offer and to the password. */
  predicate Tied(c: Config, h: Handshake, o: Offer) {
    && WellFormed(o) && BoundTo(h.binding, o) && h.pattern == o.pattern
    && h.binding.psk.Some? && h.binding.psk.value.password == c.password
  }

  predicate WaitsOrDone(h: Handshake) { |h.seen| == 1 || Finished(h) }

  predicate EntryFine(e: Entry) {
    WellFormed(e.offer) && BoundTo(e.packet.auth, e.offer) && (e.initiator <==> |e.packet.prior| % 2 == 0)
  }

  predicate ServerValid(s: Client) {
    && (s.hello.Some? ==> s.hello.value.Obj? && Valid(s.hello.value))
    && (s.params.Some? ==> s.params.value.Obj? && Valid(s.params.value))
  }

  predicate ClientFine(c: Config, w: World) {
    && ServerValid(w.client)
    && (w.client.handshake.Some? ==>
          w.begun.Some? && Tied(c, w.client.handshake.value, w.begun.value) && WaitsOrDone(w.client.handshake.value))
  }

  /** Someone of the given side wrote a message of the transcript and took the negotiation to be the same. */
  ghost predicate Confirmed(log: iset<Entry>, d: Done, initiator: bool) {
    exists e :: e in log && e.packet in d.transcript && e.initiator == initiator && Agree(e.offer, d.offer)
  }

  predicate DoneFine(d: Done) {
    WellFormed(d.offer) && |d.transcript| >= 2 && BoundTo(d.transcript[1].auth, d.offer)
  }

  ghost predicate Inv(c: Config, w: World) {
    && ClientFine(c, w)
    && (forall e :: e in w.log ==> EntryFine(e))
    && (forall r :: r in w.responders ==> Tied(c, r.handshake, r.offer) && |r.handshake.seen| == 2
                                          && BoundTo(r.handshake.seen[1].auth, r.offer))
    && (forall r :: r in w.satellites ==> Tied(c, r.handshake, r.offer) && |r.handshake.seen| == 1)
    && (forall d :: d in w.clientDone ==> DoneFine(d) && Confirmed(w.log, d, false))
    && (forall d :: d in w.responderDone ==> DoneFine(d) && Confirmed(w.log, d, true))
  }

  /** An authenticated message that could be delivered was written by someone who agrees with the reader. */
  lemma AuthenticatedAgrees(c: Config, w: World, p: Packet, h: Handshake, o: Offer)
    requires Inv(c, w) && Deliverable(c, w, p) && Tied(c, h, o) && Mixed(h) && Read(h, p).Some?
    ensures exists e :: e in w.log && e.packet == p && e.initiator == (|h.seen| % 2 == 0) && Agree(e.offer, o)
  {
    hide WellFormed, BoundTo, Agree, Inv, ClientFine;
    var e :| e in w.log && e.packet == p;
    assert EntryFine(e) by { EntryFineIn(c, w, e); }
    BoundAlikeAgree(h.binding, o, e.offer);
    AgreeSymmetric(o, e.offer);
  }

  lemma EntryFineIn(c: Config, w: World, e: Entry)
    requires Inv(c, w) && e in w.log
    ensures EntryFine(e)
  {
  }

  lemma AgreeSymmetric(a: Offer, b: Offer)
    requires Agree(a, b)
    ensures Agree(b, a)
  {
  }

  lemma BeginTied(c: Config, initiator: bool, o: Offer, nodeId: string, ownKey: string, remoteKey: Option<string>)
    requires WellFormed(o)
    ensures Tied(c, Begin(initiator, o, Psk(c.password, nodeId), ownKey, remoteKey), o)
  {
    hide BuildPrologue, NoiseProtocolName, Valid;
  }

  lemma WrittenFine(c: Config, h: Handshake, o: Offer, payload: seq<byte>, ephemeral: nat)
    requires Tied(c, h, o)
    ensures var p := Written(h, payload, ephemeral);
            && EntryFine(Entry(p, |h.seen| % 2 == 0, o)) && BoundTo(p.auth, o) && Tied(c, Saw(h, p), o)
  {
    hide BuildPrologue, NoiseProtocolName, Valid;
  }

  lemma ReadTied(c: Config, h: Handshake, o: Offer, p: Packet)
    requires Tied(c, h, o) && Read(h, p).Some?
    ensures Tied(c, Read(h, p).value, o) && Read(h, p).value.seen == h.seen + [p]
    ensures !Finished(h) && BoundTo(p.auth, o)
  {
    hide BuildPrologue, NoiseProtocolName, Valid;
  }

  lemma SayWrites(c: Config, s: Client, m: Msg, p: Packet)
    ensures Wrote(Say(c, s, m).bus, p) <==> Wrote(s.bus, p) || p in PacketsIn(m)
  {
    EmitWrites(c.mode, s.bus, m, p);
  }

  lemma AbortWrites(c: Config, s: Client, p: Packet)
    ensures Wrote(Abort(c, s).bus, p) == Wrote(s.bus, p)
  {
    hide Wrote;
    SameWritten(s.bus, s.bus.(transport := None), p);
    RequestWrites(c.mode, s.bus.(transport := None), p);
  }

  lemma SelectedOffer(c: Config, s: Client, payload: seq<Field>)
    requires ServerValid(s) && s.params == Some(Obj(payload)) && Selection(c, s, payload).Some?
    ensures WellFormed(OfferOf(s, payload, Selection(c, s, payload).value))
    ensures OfferNow(c, s) == OfferOf(s, payload, Selection(c, s, payload).value)
  {
    SelectsRegistered(c, s, payload);
    hide Selection, Valid;
    assert Valid(Obj([])) by { ValidEmpty(); }
  }

  lemma ValidEmpty()
    ensures Valid(Obj([]))
  {
  }

  lemma OfferNowKept(c: Config, s: Client, s': Client)
    requires s'.params == s.params && s'.hello == s.hello && s'.pins == s.pins && s'.nodeId == s.nodeId
    ensures OfferNow(c, s') == OfferNow(c, s)
  {
    hide SelectNoiseOptions, Get, Offered, Truthy;
  }

  /** What a handshake just started is bound to is what the client holds. */
  lemma StartFacts(c: Config, s: Client, payload: seq<Field>, ephemeral: nat, p: Packet)
    requires s.handshake.None? && ServerValid(s) && s.params == Some(Obj(payload))
    ensures var s' := StartNoise(c, s, payload, ephemeral);
            && s'.hello == s.hello && s'.params == s.params
            && (Wrote(s'.bus, p) && !Wrote(s.bus, p) ==>
                  s'.handshake.Some? && EntryFine(Entry(p, true, OfferNow(c, s'))))
            && (s'.handshake.Some? ==> Tied(c, s'.handshake.value, OfferNow(c, s')) && |s'.handshake.value.seen| == 1)
  {
    hide Selection, OfferOf, Begin, Written, NoisePayload, Pinned, Say, Wrote, Tied, EntryFine, OfferNow, ServerValid,
         WellFormed,
         BoundTo, Valid;
    var sel := Selection(c, s, payload);
    if sel.None? {
      SayWrites(c, s, LegacyOffer(s.binarize, c.password != ""), p);
      SaySame(c, s, LegacyOffer(s.binarize, c.password != ""));
    } else if !s.nodeId.Str? {
      AbortWrites(c, s, p);
    } else {
      SelectedOffer(c, s, payload);
      var o := OfferOf(s, payload, sel.value);
      var h := Begin(true, o, Psk(c.password, s.nodeId.s), c.ownKey, Pinned(c, s));
      var msg1 := Written(h, NoisePayload(c, s), ephemeral);
      var s1 := s.(handshake := Some(Saw(h, msg1)), pattern := Some(sel.value.0));
      var m := NoiseOffer(sel.value.0, sel.value.1, msg1);
      BeginTied(c, true, o, s.nodeId.s, c.ownKey, Pinned(c, s));
      BegunEmpty(o, Psk(c.password, s.nodeId.s), c.ownKey, Pinned(c, s));
      WrittenFine(c, h, o, NoisePayload(c, s), ephemeral);
      SayWrites(c, s1, m, p);
      SaySame(c, s1, m);
      OfferNowKept(c, s, Say(c, s1, m));
    }
  }

  lemma BegunEmpty(o: Offer, psk: Psk, ownKey: string, remoteKey: Option<string>)
    ensures Begin(true, o, psk, ownKey, remoteKey).seen == []
  {
  }

  lemma SaySame(c: Config, s: Client, m: Msg)
    ensures Say(c, s, m) == s.(bus := Say(c, s, m).bus)
  {
  }

  lemma CompleteFacts(c: Config, s: Client, payload: seq<byte>, p: Packet)
    requires s.handshake.Some?
    ensures var s' := Complete(c, s, payload);
            && s'.hello == s.hello && s'.params == s.params
            && Wrote(s'.bus, p) == Wrote(s.bus, p)
            && (s'.handshake.Some? ==> s'.handshake == s.handshake && Finished(s.handshake.value))
            && (s'.handshake.None? && s'.bus.transport.Some? ==>
                  s'.bus.transport.value.transcript == s.handshake.value.seen)
  {
    hide Finished, RemoteOf, Readable, Pinned, PinId, Wrote, Emit;
    var h := s.handshake.value;
    AbortWrites(c, s, p);
    var s1 := Pin(c, s, RemoteOf(h));
    var s2 := s1.(bus := s1.bus.(transport := Some(BusClients.Session(h.seen, RemoteOf(h), 0))), handshake := None);
    SayWrites(c, s2, SessionHello, p);
    SameWritten(s.bus, s2.bus, p);
    EmitKeepsTranscript(c.mode, s2.bus, SessionHello);
    SameWritten(Say(c, s2, SessionHello).bus, Established(Say(c, s2, SessionHello)).bus, p);
  }

  lemma EmitKeepsTranscript(mode: Mode, b: Bus, m: Msg)
    ensures var b' := Emit(mode, b, m);
            && (b'.transport.Some? <==> b.transport.Some?)
            && (b'.transport.Some? ==> b'.transport.value.transcript == b.transport.value.transcript)
  {
  }

  lemma ReceiveFacts(c: Config, s: Client, payload: seq<Field>, ephemeral: nat, o: Offer, p: Packet)
    requires s.handshake.Some? && Tied(c, s.handshake.value, o) && WaitsOrDone(s.handshake.value)
    ensures var s' := ReceiveNoise(c, s, payload, ephemeral);
            && s'.hello == s.hello && s'.params == s.params
            && (Wrote(s'.bus, p) && !Wrote(s.bus, p) ==> EntryFine(Entry(p, true, o)))
            && (s'.handshake.Some? ==> Tied(c, s'.handshake.value, o) && Finished(s'.handshake.value))
    ensures var h, s' := s.handshake.value, ReceiveNoise(c, s, payload, ephemeral);
            s'.handshake.None? && s'.bus.transport.Some? ==>
              && PacketOf(c, payload).Some? && Read(h, PacketOf(c, payload).value).Some? && |h.seen| == 1
              && var tr := s'.bus.transport.value.transcript; |tr| >= 2 && tr[1] == PacketOf(c, payload).value
  {
    hide PacketOf, Read, Reply, Complete, Abort, Tied, EntryFine, Wrote;
    AbortWrites(c, s, p);
    AbortClears(c, s);
    var q := PacketOf(c, payload);
    if q.Some? && Read(s.handshake.value, q.value).Some? {
      var h := Read(s.handshake.value, q.value).value;
      ReadTied(c, s.handshake.value, o, q.value);
      ReplyFacts(c, s, h, ephemeral, o, p);
      CompleteFacts(c, Reply(c, s, h, ephemeral), q.value.payload, p);
    }
  }

  lemma ReplyFacts(c: Config, s: Client, h: Handshake, ephemeral: nat, o: Offer, p: Packet)
    requires Tied(c, h, o) && |h.seen| == 2
    ensures var s' := Reply(c, s, h, ephemeral);
            && s'.hello == s.hello && s'.params == s.params
            && (Wrote(s'.bus, p) && !Wrote(s.bus, p) ==> EntryFine(Entry(p, true, o)))
            && s'.handshake.Some? && Tied(c, s'.handshake.value, o) && h.seen <= s'.handshake.value.seen
  {
    hide Written, Say, Tied, EntryFine, Wrote, Finished;
    if Finished(h) {
      SameWritten(s.bus, s.(handshake := Some(h)).bus, p);
    } else {
      var msg3 := Written(h, [], ephemeral);
      WrittenFine(c, h, o, [], ephemeral);
      var s1 := s.(handshake := Some(Saw(h, msg3)));
      SayWrites(c, s1, NoiseReply(msg3), p);
      SaySame(c, s1, NoiseReply(msg3));
    }
  }

  lemma AbortClears(c: Config, s: Client)
    ensures var s' := Abort(c, s);
            s'.handshake.None? && s'.bus.transport.None? && s'.hello == s.hello && s'.params == s.params
  {
  }

  function Begun(c: Config, begun: Option<Offer>, s: Client, s': Client): Option<Offer> {
    if s.handshake.None? && s'.handshake.Some? then Some(OfferNow(c, s')) else begun
  }

  predicate Bound(c: Config, s: Client, begun: Option<Offer>) {
    && ServerValid(s)
    && (s.handshake.Some? ==> begun.Some? && Tied(c, s.handshake.value, begun.value) && WaitsOrDone(s.handshake.value))
  }

  /** The step keeps what is bound, and what it writes is bound to the same. */
  ghost predicate Faithful(c: Config, s: Client, s': Client, begun: Option<Offer>, p: Packet) {
    var begun' := Begun(c, begun, s, s');
    && Bound(c, s', begun')
    && (Wrote(s'.bus, p) && !Wrote(s.bus, p) ==> begun'.Some? && EntryFine(Entry(p, true, begun'.value)))
  }

  lemma StartFaithful(c: Config, s: Client, payload: seq<Field>, ephemeral: nat, begun: Option<Offer>, p: Packet)
    requires s.handshake.None? && ServerValid(s) && s.params == Some(Obj(payload))
    ensures Faithful(c, s, StartNoise(c, s, payload, ephemeral), begun, p)
    ensures Faithful(c, s, LegacyStart(c, s), begun, p)
    ensures Faithful(c, s, s, begun, p)
  {
    hide StartNoise, LegacyStart, Tied, EntryFine, Wrote, OfferNow, ServerValid;
    StartFacts(c, s, payload, ephemeral, p);
    LegacyFaithful(c, s, begun, p);
    assert ServerValid(StartNoise(c, s, payload, ephemeral)) by {
      ServerValidSame(s, StartNoise(c, s, payload, ephemeral));
    }
  }

  lemma ServerValidSame(s: Client, s': Client)
    requires ServerValid(s) && s'.hello == s.hello && s'.params == s.params
    ensures ServerValid(s')
  {
    hide Valid;
  }

  lemma LegacyFaithful(c: Config, s: Client, begun: Option<Offer>, p: Packet)
    requires Bound(c, s, begun)
    ensures Faithful(c, s, LegacyStart(c, s), begun, p)
  {
    hide Say, Tied, EntryFine, Wrote, OfferNow, Valid, WaitsOrDone;
    SayWrites(c, s, LegacyOffer(s.binarize, c.password != ""), p);
    SaySame(c, s, LegacyOffer(s.binarize, c.password != ""));
  }

  lemma ReceiveFaithful(c: Config, s: Client, payload: seq<Field>, ephemeral: nat, begun: Option<Offer>, p: Packet)
    requires s.handshake.Some? && Bound(c, s, begun)
    ensures Faithful(c, s, ReceiveNoise(c, s, payload, ephemeral), begun, p)
  {
    ReceiveFacts(c, s, payload, ephemeral, begun.value, p);
    hide ReceiveNoise, Tied, EntryFine, Wrote, OfferNow, Valid, Finished;
  }

  lemma ParamsFaithful(c: Config, s: Client, payload: seq<Field>, ephemeral: nat, begun: Option<Offer>, p: Packet)
    requires Bound(c, s, begun) && Valid(Obj(payload)) && (s.handshake.Some? ==> !HasKey(payload, "noise"))
    ensures Faithful(c, s, ReceiveParams(c, s, payload, ephemeral), begun, p)
  {
    hide ShouldUseNoise, StartNoise, LegacyStart, Tied, EntryFine, Wrote, OfferNow, Valid, WaitsOrDone, Get, HasKey,
         Truthy;
    var s1 := s.(binarize := if HasKey(payload, "binarize") then Get(payload, "binarize") else Bool(false),
                 params := Some(Obj(payload)));
    SameWritten(s.bus, s1.bus, p);
    if s.handshake.None? {
      StartFaithful(c, s1, payload, ephemeral, begun, p);
    } else {
      NoNoiseNoNoise(c, s1, payload);
      LegacyFaithful(c, s1, begun, p);
    }
  }

  lemma LegacyReplyFaithful(c: Config, s: Client, envelope: Json, begun: Option<Offer>, p: Packet)
    requires Bound(c, s, begun)
    ensures Faithful(c, s, ReceiveLegacy(c, s, envelope), begun, p)
  {
    hide Say, Tied, EntryFine, Wrote, OfferNow, Valid, WaitsOrDone;
    var secret := c.openEnvelope(envelope, s.mpubkey);
    if secret.Some? {
      var s1 := s.(bus := s.bus.(cryptoKey := secret));
      SameWritten(s.bus, s1.bus, p);
      SayWrites(c, s1, SessionHello, p);
      SaySame(c, s1, SessionHello);
      SameWritten(Say(c, s1, SessionHello).bus, Established(Say(c, s1, SessionHello)).bus, p);
    }
  }

  lemma BusFaithful(c: Config, s: Client, b: Bus, begun: Option<Offer>, p: Packet)
    requires Bound(c, s, begun) && (Wrote(b, p) ==> Wrote(s.bus, p))
    ensures Faithful(c, s, s.(bus := b), begun, p)
  {
    hide Tied, EntryFine, Wrote, OfferNow, Valid, WaitsOrDone;
  }

  lemma StepFaithful(c: Config, s: Client, e: Event, begun: Option<Offer>, p: Packet)
    requires Bound(c, s, begun)
    requires e.Hello? || e.Shake? ==> Valid(Obj(e.fields))
    requires e.Send? ==> e.msg.App?
    ensures Faithful(c, s, Step(c, s, e), begun, p)
  {
    hide Tied, EntryFine, Wrote, OfferNow, Valid, WaitsOrDone, ReceiveNoise, ReceiveLegacy, ReceiveParams, StartNoise,
         LegacyStart,
         ShouldUseNoise, Get, HasKey, Truthy, Drain, Say;
    match e
    case Hello(fields) =>
    case Shake(fields, ephemeral) =>
      if HasKey(fields, "noise") && s.handshake.Some? {
        ReceiveFaithful(c, s, fields, ephemeral, begun, p);
      } else if HasKey(fields, "envelope") {
        LegacyReplyFaithful(c, s, Get(fields, "envelope"), begun, p);
      } else {
        ParamsFaithful(c, s, fields, ephemeral, begun, p);
      }
    case Retry(ephemeral) => RetryFaithful(c, s, ephemeral, begun, p);
    case Open =>
      SameWritten(s.bus, s.bus.(connected := true), p);
      BusFaithful(c, s, s.bus.(connected := true), begun, p);
    case Ended(how) =>
      SameWritten(s.bus, End(c.mode, s.bus, how), p);
      BusFaithful(c, s, End(c.mode, s.bus, how), begun, p);
    case Turn =>
      DrainWrites(s.bus, p);
      SameWritten(s.bus, OnClose(s.bus), p);
      BusFaithful(c, s, TakeTurn(c.mode, s.bus), begun, p);
    case Send(msg) =>
      SayWrites(c, s, msg, p);
      SaySame(c, s, msg);
      BusFaithful(c, s, Say(c, s, msg).bus, begun, p);
  }

  lemma RetryFaithful(c: Config, s: Client, ephemeral: nat, begun: Option<Offer>, p: Packet)
    requires Bound(c, s, begun)
    ensures Faithful(c, s, StartHandshake(c, s, ephemeral), begun, p)
  {
    hide ShouldUseNoise, StartNoise, LegacyStart, Tied, EntryFine, Wrote, OfferNow, Valid, WaitsOrDone;
    LegacyFaithful(c, s, begun, p);
    if s.handshake.None? && s.params.Some? { StartFaithful(c, s, s.params.value.fields, ephemeral, begun, p); }
  }

  // ---------------------------------------------------------------- runs

  ghost predicate LogFine(log: iset<Entry>) { forall e :: e in log ==> EntryFine(e) }

  lemma ConfirmedGrows(log: iset<Entry>, log': iset<Entry>, d: Done, initiator: bool)
    requires log <= log' && Confirmed(log, d, initiator)
    ensures Confirmed(log', d, initiator)
  {
    hide Agree;
    var e :| e in log && e.packet in d.transcript && e.initiator == initiator && Agree(e.offer, d.offer);
    assert e in log';
  }

  /** The client has just finished: the reply it accepted was written by a responder that agrees with it. */
  lemma ClientFinishes(c: Config, w: World, fields: seq<Field>, ephemeral: nat)
    requires Inv(c, w) && Possible(c, w, AtClient(Shake(fields, ephemeral)))
    requires w.client.handshake.Some?
    requires var s := Step(c, w.client, Shake(fields, ephemeral)); s.handshake.None? && s.bus.transport.Some?
    ensures var s := Step(c, w.client, Shake(fields, ephemeral));
            var d := Done(s.bus.transport.value.transcript, w.begun.value);
            DoneFine(d) && Confirmed(w.log, d, false)
  {
    var s := Step(c, w.client, Shake(fields, ephemeral));
    var o := w.begun.value;
    var h := w.client.handshake.value;
    ClientFineOf(c, w);
    hide Inv, Tied, WellFormed, BoundTo, Agree, Read, Finished, ReceiveLegacy, ReceiveParams, ReceiveNoise, PacketOf,
         ServerValid,
         Valid, HasKey, Get, ClientFine;
    var q := PacketOf(c, fields);
    if HasKey(fields, "noise") {
      ReceiveFacts(c, w.client, fields, ephemeral, o, h.seen[0]);
      AuthenticatedAgrees(c, w, q.value, h, o);
      ReadTied(c, h, o, q.value);
      TiedFormed(c, h, o);
    } else {
      KeepsHandshake(c, w.client, fields, ephemeral);
    }
  }

  lemma ClientFineOf(c: Config, w: World)
    requires Inv(c, w)
    ensures Bound(c, w.client, w.begun)
    ensures w.client.handshake.Some? ==>
              Tied(c, w.client.handshake.value, w.begun.value) && w.client.handshake.value.seen != []
  {
  }

  lemma TiedFormed(c: Config, h: Handshake, o: Offer)
    requires Tied(c, h, o)
    ensures WellFormed(o)
  {
  }

  /** Only a Noise reply ends a handshake in flight. */
  lemma KeepsHandshake(c: Config, s: Client, fields: seq<Field>, ephemeral: nat)
    requires s.handshake.Some? && !HasKey(fields, "noise")
    ensures HandleHandshake(c, s, fields, ephemeral).handshake == s.handshake
  {
    ParamsKeepHandshake(c, s, fields, ephemeral);
    hide ReceiveParams, Get, HasKey;
  }

  lemma OnlyShakeEnds(c: Config, s: Client, e: Event)
    requires s.handshake.Some? && !e.Shake?
    ensures Step(c, s, e).handshake == s.handshake
  {
    hide Drain, Truthy;
  }

  lemma ClientStepBound(c: Config, w: World, e: Event)
    requires Inv(c, w) && Possible(c, w, AtClient(e))
    ensures var w' := ClientStep(c, w, e);
            ClientFine(c, w') && LogFine(w'.log) && w.log <= w'.log
  {
    PossibleClient(c, w, e);
    ClientFineOf(c, w);
    hide Step, Tied, EntryFine, Wrote, OfferNow, WaitsOrDone, ServerValid, Possible;
    var w' := ClientStep(c, w, e);
    var s' := Step(c, w.client, e);
    var begun := Begun(c, w.begun, w.client, s');
    StepFaithful(c, w.client, e, w.begun, Packet(0, None, Binding("", [], None, None), [], []));
    forall entry | entry in w'.log ensures EntryFine(entry) {
      if entry !in w.log {
        StepFaithful(c, w.client, e, w.begun, entry.packet);
        assert entry == Entry(entry.packet, true, begun.value);
      }
    }
  }

  lemma ClientStepDone(c: Config, w: World, e: Event, d: Done)
    requires Inv(c, w) && Possible(c, w, AtClient(e))
    requires d in ClientStep(c, w, e).clientDone && d !in w.clientDone
    ensures DoneFine(d) && Confirmed(w.log, d, false)
  {
    ClientFineOf(c, w);
    hide Step, Inv, Possible, Wrote, DoneFine, Confirmed, Bound, Tied;
    if !e.Shake? { OnlyShakeEnds(c, w.client, e); }
    ClientFinishes(c, w, e.fields, e.ephemeral);
  }

  lemma ClientStepKeepsInv(c: Config, w: World, e: Event)
    requires Inv(c, w) && Possible(c, w, AtClient(e))
    ensures Inv(c, ClientStep(c, w, e))
  {
    hide ClientStep, Tied, EntryFine, BoundTo, DoneFine, Confirmed, ClientFine, Possible;
    var w' := ClientStep(c, w, e);
    ClientStepBound(c, w, e);
    ClientStepLeaves(c, w, e);
    forall d | d in w'.clientDone ensures DoneFine(d) && Confirmed(w'.log, d, false) {
      if d !in w.clientDone { ClientStepDone(c, w, e, d); }
      ConfirmedGrows(w.log, w'.log, d, false);
    }
    forall d | d in w.responderDone ensures Confirmed(w'.log, d, true) { ConfirmedGrows(w.log, w'.log, d, true); }
  }

  lemma ClientStepLeaves(c: Config, w: World, e: Event)
    ensures var w' := ClientStep(c, w, e);
            w'.responders == w.responders && w'.satellites == w.satellites && w'.responderDone == w.responderDone
  {
    hide Step, Wrote, OfferNow;
  }

  lemma PossibleClient(c: Config, w: World, e: Event)
    requires Possible(c, w, AtClient(e))
    ensures e.Hello? || e.Shake? ==> Valid(Obj(e.fields))
    ensures e.Send? ==> e.msg.App?
  {
  }

  lemma AnswerFacts(c: Config, w: World, o: Offer, nodeId: string, ownKey: string, remoteKey: Option<string>, p: Packet,
                    payload: seq<byte>, ephemeral: nat)
    requires Inv(c, w) && WellFormed(o) && Deliverable(c, w, p)
    requires Answer(c, o, nodeId, ownKey, remoteKey, p, payload, ephemeral).Some?
    ensures var h := Answer(c, o, nodeId, ownKey, remoteKey, p, payload, ephemeral).value;
            && Tied(c, h, o) && |h.seen| == 2 && BoundTo(h.seen[1].auth, o) && EntryFine(Entry(h.seen[1], false, o))
            && (Finished(h) ==> Confirmed(w.log, Done(h.seen, o), true))
  {
    hide Inv, Tied, WellFormed, BoundTo, Agree, Read, EntryFine, Deliverable;
    var h0 := Begin(false, o, Psk(c.password, nodeId), ownKey, remoteKey);
    BeginTied(c, false, o, nodeId, ownKey, remoteKey);
    assert h0.seen == [];
    ReadTied(c, h0, o, p);
    var h1 := Read(h0, p).value;
    WrittenFine(c, h1, o, payload, ephemeral);
    var h := Saw(h1, Written(h1, payload, ephemeral));
    assert h.pattern == h0.pattern by { ReadPattern(h0, p); }
    if Finished(h) {
      AuthenticatedAgrees(c, w, p, h0, o);
      assert h.seen[0] == p;
    }
  }

  lemma ReadPattern(h: Handshake, p: Packet)
    requires Read(h, p).Some?
    ensures Read(h, p).value.pattern == h.pattern
  {
  }

  lemma RespondKeepsInv(c: Config, w: World, e: WorldEvent)
    requires Inv(c, w) && Possible(c, w, e) && e.Respond?
    ensures Inv(c, WorldStep(c, w, e))
  {
    hide Answer, Tied, EntryFine, BoundTo, Confirmed, WellFormed, Deliverable, Finished, ClientFine;
    var a := Answer(c, e.o, e.nodeId, e.ownKey, e.remoteKey, e.p, e.payload, e.ephemeral);
    if a.Some? {
      AnswerFacts(c, w, e.o, e.nodeId, e.ownKey, e.remoteKey, e.p, e.payload, e.ephemeral);
      var w' := WorldStep(c, w, e);
      assert w.log <= w'.log;
      forall d | Confirmed(w.log, d, false) ensures Confirmed(w'.log, d, false) {
        ConfirmedGrows(w.log, w'.log, d, false);
      }
      forall d | Confirmed(w.log, d, true) ensures Confirmed(w'.log, d, true) {
        ConfirmedGrows(w.log, w'.log, d, true);
      }
      TiedFormed(c, a.value, e.o);
      ClientFineSame(c, w, w');
    }
  }

  lemma ClientFineSame(c: Config, w: World, w': World)
    requires ClientFine(c, w) && w'.client == w.client && w'.begun == w.begun
    ensures ClientFine(c, w')
  {
  }

  lemma ConcludeKeepsInv(c: Config, w: World, r: Responder, p: Packet)
    requires Inv(c, w) && Possible(c, w, Conclude(r, p))
    ensures Inv(c, WorldStep(c, w, Conclude(r, p)))
  {
    hide Tied, EntryFine, BoundTo, WellFormed, Read, Finished, ClientFine, Deliverable, Agree;
    if Read(r.handshake, p).Some? {
      AuthenticatedAgrees(c, w, p, r.handshake, r.offer);
      ReadTied(c, r.handshake, r.offer, p);
      TiedFormed(c, r.handshake, r.offer);
      var h := Read(r.handshake, p).value;
      assert h.seen[2] == p && h.seen[1] == r.handshake.seen[1];
      assert Confirmed(w.log, Done(h.seen, r.offer), true);
      ClientFineSame(c, w, WorldStep(c, w, Conclude(r, p)));
    }
  }

  /** A new honest entry disturbs nothing. */
  lemma EntryKeepsInv(c: Config, w: World, e: Entry)
    requires Inv(c, w) && EntryFine(e)
    ensures Inv(c, w.(log := w.log + iset{e}))
  {
    hide Tied, EntryFine, BoundTo, Confirmed, WellFormed, ClientFine;
    var w' := w.(log := w.log + iset{e});
    assert w.log <= w'.log;
    forall d | Confirmed(w.log, d, false) ensures Confirmed(w'.log, d, false) {
      ConfirmedGrows(w.log, w'.log, d, false);
    }
    forall d | Confirmed(w.log, d, true) ensures Confirmed(w'.log, d, true) { ConfirmedGrows(w.log, w'.log, d, true); }
    ClientFineSame(c, w, w');
  }

  lemma StartKeepsInv(c: Config, w: World, e: WorldEvent)
    requires Inv(c, w) && Possible(c, w, e) && e.Start?
    ensures Inv(c, WorldStep(c, w, e))
  {
    hide Tied, EntryFine, BoundTo, Confirmed, WellFormed, ClientFine, DoneFine, Begin, Written;
    var h := Begin(true, e.o, Psk(c.password, e.nodeId), e.ownKey, e.remoteKey);
    var msg1 := Written(h, e.payload, e.ephemeral);
    BeginTied(c, true, e.o, e.nodeId, e.ownKey, e.remoteKey);
    BegunEmpty(e.o, Psk(c.password, e.nodeId), e.ownKey, e.remoteKey);
    WrittenFine(c, h, e.o, e.payload, e.ephemeral);
    EntryKeepsInv(c, w, Entry(msg1, true, e.o));
    ClientFineSame(c, w, WorldStep(c, w, e));
  }

  lemma GoOnKeepsInv(c: Config, w: World, r: Responder, p: Packet, ephemeral: nat)
    requires Inv(c, w) && Possible(c, w, GoOn(r, p, ephemeral))
    ensures Inv(c, WorldStep(c, w, GoOn(r, p, ephemeral)))
  {
    hide *;
    PossibleSatellite(c, w, r, p, ephemeral);
    SatelliteTied(c, w, r);
    GoOnStep(c, w, r, p, ephemeral);
    if Read(r.handshake, p).Some? {
      ReadTied(c, r.handshake, r.offer, p);
      var h := Read(r.handshake, p).value;
      assert |h.seen| % 2 == 0;
      WrittenFine(c, h, r.offer, [], ephemeral);
      EntryKeepsInv(c, w, Entry(Written(h, [], ephemeral), true, r.offer));
    }
  }

  lemma PossibleSatellite(c: Config, w: World, r: Responder, p: Packet, ephemeral: nat)
    requires Possible(c, w, GoOn(r, p, ephemeral))
    ensures r in w.satellites
  {
  }

  lemma GoOnStep(c: Config, w: World, r: Responder, p: Packet, ephemeral: nat)
    ensures var h := Read(r.handshake, p);
            WorldStep(c, w, GoOn(r, p, ephemeral))
            == if h.None? || Finished(h.value) then w
               else w.(log := w.log + iset{Entry(Written(h.value, [], ephemeral), true, r.offer)})
  {
    hide Read, Finished, Written;
  }

  lemma SatelliteTied(c: Config, w: World, r: Responder)
    requires Inv(c, w) && r in w.satellites
    ensures Tied(c, r.handshake, r.offer) && |r.handshake.seen| == 1
  {
    hide Tied, EntryFine, ClientFine, DoneFine, Confirmed;
  }

  lemma {:induction false} InvKept(c: Config, w: World, es: seq<WorldEvent>)
    requires Inv(c, w) && WorldRun(c, w, es)
    ensures Inv(c, WorldAfter(c, w, es))
    decreases es
  {
    if es != [] {
      hide Inv, Possible, ClientStep;
      match es[0] {
        case AtClient(e) => ClientStepKeepsInv(c, w, e);
        case Respond(_, _, _, _, _, _, _) => RespondKeepsInv(c, w, es[0]);
        case Conclude(r, p) => ConcludeKeepsInv(c, w, r, p);
        case Start(_, _, _, _, _, _) => StartKeepsInv(c, w, es[0]);
        case GoOn(r, p, ephemeral) => GoOnKeepsInv(c, w, r, p, ephemeral);
      }
      InvKept(c, WorldStep(c, w, es[0]), es[1..]);
    }
  }

  lemma InitialInv(c: Config, w: World)
    requires Initial(w)
    ensures Inv(c, w)
  {
  }

  /**
   Agreement. In every run over an arbitrary network: what a client bound when it finished, a responder wrote its
   reply under, and the other way round; and two sides that finished the same handshake agree on the HELLO
   payload, the parameter payload, the pattern and the suite.
   */
  lemma FinishedSidesAgree(c: Config, w: World, es: seq<WorldEvent>)
    requires Initial(w) && WorldRun(c, w, es)
    ensures var w' := WorldAfter(c, w, es);
            && (forall d :: d in w'.clientDone ==> Confirmed(w'.log, d, false))
            && (forall d :: d in w'.responderDone ==> Confirmed(w'.log, d, true))
            && (forall d, f :: d in w'.clientDone && f in w'.responderDone && d.transcript == f.transcript
                               ==> Agree(d.offer, f.offer))
  {
    hide *;
    InitialInv(c, w);
    InvKept(c, w, es);
    var w' := WorldAfter(c, w, es);
    forall d | d in w'.clientDone ensures Confirmed(w'.log, d, false) { DoneMeans(c, w', d); }
    forall d | d in w'.responderDone ensures Confirmed(w'.log, d, true) { DoneMeans(c, w', d); }
    forall d, f | d in w'.clientDone && f in w'.responderDone && d.transcript == f.transcript
      ensures Agree(d.offer, f.offer)
    {
      SameTranscriptAgrees(c, w', d, f);
    }
  }

  lemma DoneMeans(c: Config, w: World, d: Done)
    requires Inv(c, w)
    ensures d in w.clientDone ==> DoneFine(d) && Confirmed(w.log, d, false)
    ensures d in w.responderDone ==> DoneFine(d) && Confirmed(w.log, d, true)
  {
    hide DoneFine, Confirmed, EntryFine, Tied, ClientFine;
  }

  lemma SameTranscriptAgrees(c: Config, w: World, d: Done, f: Done)
    requires Inv(c, w) && d in w.clientDone && f in w.responderDone && d.transcript == f.transcript
    ensures Agree(d.offer, f.offer)
  {
    DoneMeans(c, w, d);
    DoneMeans(c, w, f);
    hide Inv, Confirmed, WellFormed, BoundTo, Agree;
    BoundAlikeAgree(d.transcript[1].auth, d.offer, f.offer);
  }
}
