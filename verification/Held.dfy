/** Whether the payloads a client holds are the ones its handshake is bound to. */
module Held {
  import opened Agreement
  import opened BusClients
  import opened Handshakes
  import opened Json
  import opened Protocol
  import opened Session
  import opened Wrappers

  /** The HELLO and parameter payloads the client holds are those bound when its handshake started. */
  predicate HoldsBound(s: Client, begun: Option<Offer>) {
    begun.Some? && s.params.Some? && begun.value.hello == s.hello.UnwrapOr(Obj([]))
    && begun.value.params == s.params.value
  }

  /**
   While a handshake is in flight: a HANDSHAKE with neither a Noise message nor an envelope, which is taken for
   new parameters; a HELLO when the first one named nobody.
   */
  predicate Disturbs(s: Client, e: Event) {
    && s.handshake.Some?
    && ((e.Shake? && !HasKey(e.fields, "noise") && !HasKey(e.fields, "envelope"))
        || (e.Hello? && !Truthy(s.nodeId)))
  }

  lemma StepKeepsPayloads(c: Config, s: Client, e: Event)
    requires s.handshake.Some? && !Disturbs(s, e)
    ensures Step(c, s, e).hello == s.hello && Step(c, s, e).params == s.params
  {
    hide Read, Written, Begin, Selection, ShouldUseNoise, Pinned, PinId, Finished, Readable, RemoteOf, Get, HasKey,
         Truthy,
         PacketOf, Emit, Drain;
  }

  lemma StartsHoldingBound(c: Config, s: Client, e: Event)
    requires s.handshake.None? && Step(c, s, e).handshake.Some? && ServerValid(s)
    requires e.Hello? || e.Shake? ==> Valid(Obj(e.fields))
    ensures HoldsBound(Step(c, s, e), Some(OfferNow(c, Step(c, s, e))))
  {
    hide ShouldUseNoise, StartNoise, LegacyStart, ReceiveLegacy, OfferNow, Get, HasKey, Truthy, Drain, Valid,
         HoldsBound, Emit;
    match e
    case Shake(fields, ephemeral) =>
      if HasKey(fields, "envelope") {
        LegacyKeepsHandshake(c, s, Get(fields, "envelope"));
        assert false;
      } else {
        var s1 := s.(binarize := if HasKey(fields, "binarize") then Get(fields, "binarize") else Bool(false),
                     params := Some(Obj(fields)));
        StartHolds(c, s1, fields, ephemeral);
        LegacyStartKeepsHandshake(c, s1);
      }
    case Retry(ephemeral) =>
      LegacyStartKeepsHandshake(c, s);
      if s.params.Some? && s.params.value.Obj? { StartHolds(c, s, s.params.value.fields, ephemeral); }
    case _ =>
  }

  lemma LegacyKeepsHandshake(c: Config, s: Client, envelope: Json)
    ensures ReceiveLegacy(c, s, envelope).handshake == s.handshake
  {
  }

  lemma LegacyStartKeepsHandshake(c: Config, s: Client)
    ensures LegacyStart(c, s).handshake == s.handshake
  {
  }

  lemma StartHolds(c: Config, s: Client, payload: seq<Field>, ephemeral: nat)
    requires s.handshake.None? && s.params == Some(Obj(payload)) && ServerValid(s)
    ensures var s' := StartNoise(c, s, payload, ephemeral);
            s'.handshake.Some? ==> HoldsBound(s', Some(OfferNow(c, s')))
  {
    hide Selection, Begin, Written, NoisePayload, Pinned, Say, OfferNow, ServerValid, Saw, OfferOf;
    var sel := Selection(c, s, payload);
    var s' := StartNoise(c, s, payload, ephemeral);
    if sel.None? {
      SaySame(c, s, LegacyOffer(s.binarize, c.password != ""));
    } else if s.nodeId.Str? {
      SelectedOffer(c, s, payload);
      OfferHolds(s, payload, sel.value);
      var h := Begin(true, OfferOf(s, payload, sel.value), Psk(c.password, s.nodeId.s), c.ownKey, Pinned(c, s));
      var msg1 := Written(h, NoisePayload(c, s), ephemeral);
      var s1 := s.(handshake := Some(Saw(h, msg1)), pattern := Some(sel.value.0));
      SaySame(c, s1, NoiseOffer(sel.value.0, sel.value.1, msg1));
      OfferNowKept(c, s, s');
    }
  }

  lemma OfferHolds(s: Client, payload: seq<Field>, selection: (string, string))
    requires s.params == Some(Obj(payload))
    ensures var o := OfferOf(s, payload, selection);
            o.hello == s.hello.UnwrapOr(Obj([])) && o.params == s.params.value
  {
  }

  predicate Holding(w: World) { w.client.handshake.Some? ==> HoldsBound(w.client, w.begun) }

  /** No step of a run disturbs a handshake in flight. */
  ghost predicate Undisturbed(c: Config, w: World, es: seq<WorldEvent>)
    decreases es
  {
    es == [] || ((es[0].AtClient? ==> !Disturbs(w.client, es[0].e)) && Undisturbed(c, WorldStep(c, w, es[0]), es[1..]))
  }

  lemma StepKeepsHolding(c: Config, w: World, e: WorldEvent)
    requires Inv(c, w) && Holding(w) && Possible(c, w, e) && (e.AtClient? ==> !Disturbs(w.client, e.e))
    ensures Holding(WorldStep(c, w, e))
  {
    ClientFineOf(c, w);
    if e.AtClient? { PossibleClient(c, w, e.e); }
    hide Step, Inv, Possible, Tied, WaitsOrDone, OfferNow, Wrote, Answer, Read, Finished, Valid, ServerValid;
    if e.AtClient? {
      if w.client.handshake.Some? {
        StepKeepsPayloads(c, w.client, e.e);
      } else if Step(c, w.client, e.e).handshake.Some? {
        StartsHoldingBound(c, w.client, e.e);
      }
    }
  }

  lemma {:induction false} HoldingKept(c: Config, w: World, es: seq<WorldEvent>)
    requires Inv(c, w) && Holding(w) && WorldRun(c, w, es) && Undisturbed(c, w, es)
    ensures Holding(WorldAfter(c, w, es))
    decreases es
  {
    if es != [] {
      hide Inv, Holding, WorldStep, Possible, Disturbs;
      StepKeepsHolding(c, w, es[0]);
      InvKept(c, w, [es[0]]) by { OneStepRun(c, w, es[0]); }
      OneStepRun(c, w, es[0]);
      HoldingKept(c, WorldStep(c, w, es[0]), es[1..]);
    }
  }

  lemma OneStepRun(c: Config, w: World, e: WorldEvent)
    ensures Possible(c, w, e) ==> WorldRun(c, w, [e])
    ensures WorldAfter(c, w, [e]) == WorldStep(c, w, e)
  {
    hide Possible, WorldStep;
    assert [e][1..] == [];
    assert WorldRun(c, WorldStep(c, w, e), []) && WorldAfter(c, WorldStep(c, w, e), []) == WorldStep(c, w, e);
  }

  /** The client's step that completes a handshake: it holds afterwards what it held before. */
  lemma CompletionKeepsPayloads(c: Config, s: Client, e: Event)
    requires s.handshake.Some? && Step(c, s, e).handshake.None?
    ensures Step(c, s, e).hello == s.hello && Step(c, s, e).params == s.params
  {
    if !e.Shake? {
      OnlyShakeEnds(c, s, e);
      assert false;
    } else if !HasKey(e.fields, "noise") {
      KeepsHandshake(c, s, e.fields, e.ephemeral);
      assert false;
    } else {
      assert !Disturbs(s, e);
      StepKeepsPayloads(c, s, e);
    }
  }

  /** Someone on the other side wrote a reply under the payloads the client holds. */
  ghost predicate ConfirmedHeld(log: iset<Entry>, s: Client) {
    exists e :: e in log && !e.initiator && s.params.Some?
                && Same(e.offer.hello, s.hello.UnwrapOr(Obj([]))) && Same(e.offer.params, s.params.value)
  }

  lemma ConfirmedOfferHeld(log: iset<Entry>, d: Done, s: Client)
    requires Confirmed(log, d, false) && HoldsBound(s, Some(d.offer))
    ensures ConfirmedHeld(log, s)
  {
    hide Same;
    var e :| e in log && e.packet in d.transcript && !e.initiator && Agree(e.offer, d.offer);
    assert Same(e.offer.hello, d.offer.hello);
  }

  /**
   When a client finishes in a run that disturbed none of its handshakes, a responder wrote its reply under the
   very HELLO and parameter payloads the client holds, up to key order.
   */
  lemma HeldPayloadsAgree(c: Config, w: World, es: seq<WorldEvent>, fields: seq<Field>, ephemeral: nat)
    requires Initial(w) && WorldRun(c, w, es) && Undisturbed(c, w, es)
    requires var w' := WorldAfter(c, w, es);
             && Possible(c, w', AtClient(Shake(fields, ephemeral))) && w'.client.handshake.Some?
             && var s := Step(c, w'.client, Shake(fields, ephemeral)); s.handshake.None? && s.bus.transport.Some?
    ensures var w' := WorldAfter(c, w, es);
            ConfirmedHeld(w'.log, Step(c, w'.client, Shake(fields, ephemeral)))
  {
    hide *;
    InitialInv(c, w);
    InvKept(c, w, es);
    HoldingKept(c, w, es) by { InitialHolding(w); }
    var w' := WorldAfter(c, w, es);
    ClientFinishes(c, w', fields, ephemeral);
    CompletionKeepsPayloads(c, w'.client, Shake(fields, ephemeral));
    var s := Step(c, w'.client, Shake(fields, ephemeral));
    HoldingMeans(w', s);
    BegunSome(c, w');
    ConfirmedOfferHeld(w'.log, Done(s.bus.transport.value.transcript, w'.begun.value), s);
  }

  lemma InitialHolding(w: World)
    requires Initial(w)
    ensures Holding(w)
  {
  }

  lemma BegunSome(c: Config, w: World)
    requires Inv(c, w) && w.client.handshake.Some?
    ensures w.begun.Some? && Some(w.begun.value) == w.begun
  {
  }

  lemma HoldingMeans(w: World, s: Client)
    requires Holding(w) && w.client.handshake.Some? && s.hello == w.client.hello && s.params == w.client.params
    ensures HoldsBound(s, w.begun)
  {
  }

  /**
   A disturbed handshake completes all the same: the payload becomes what the client holds, the handshake goes
   on, and the reply is accepted or refused as before. The client then holds what a responder wrote its reply
   under exactly when the payload is what had been bound, up to key order.
   */
  lemma ReplacedParamsAreNotBound(c: Config, s: Client, payload: seq<Field>, ephemeral: nat, begun: Offer,
                                  theirs: Offer)
    requires s.handshake.Some? && !HasKey(payload, "noise") && !HasKey(payload, "envelope")
    requires Agree(theirs, begun)
    ensures var s' := Step(c, s, Shake(payload, ephemeral));
            && s'.handshake == s.handshake && s'.params == Some(Obj(payload)) && s'.pins == s.pins
            && (Same(theirs.params, s'.params.value) <==> Same(begun.params, Obj(payload)))
  {
    KeepsHandshake(c, s, payload, ephemeral);
    ParamsRecorded(c, s, payload, ephemeral);
    NoNoiseNoNoise(c, s.(binarize := if HasKey(payload, "binarize") then Get(payload, "binarize") else Bool(false),
                         params := Some(Obj(payload))), payload);
    hide ShouldUseNoise, StartNoise, Get, HasKey, Truthy, Meaning;
  }

  /**
   So does a handshake disturbed by a HELLO, which a client takes in as long as none has named its sender: the
   handshake goes on, and the client then holds what a responder wrote its reply under exactly when the new
   HELLO is the one that had been bound, up to key order.
   */
  lemma ReplacedHelloIsNotBound(c: Config, s: Client, payload: seq<Field>, begun: Offer, theirs: Offer)
    requires s.handshake.Some? && Agree(theirs, begun)
    ensures var s' := Step(c, s, Hello(payload));
            && s'.handshake == s.handshake && s'.params == s.params && s'.pins == s.pins && s'.bus == s.bus
            && (Truthy(s.nodeId) ==> s'.hello == s.hello)
            && (!Truthy(s.nodeId) ==> s'.hello == Some(Obj(payload))
                                      && (Same(theirs.hello, s'.hello.value) <==> Same(begun.hello, Obj(payload))))
  {
    hide Get, HasKey, Truthy, Meaning;
  }
}
