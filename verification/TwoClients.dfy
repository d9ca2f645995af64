/**
 The threading and the asyncio client as they are: the threading client keeps pins under its endpoint, the
 asyncio client, which has no config, under the server's node id. The asyncio loop takes its turn at any time.
 */
module TwoClients {
  import opened BusClients
  import opened Effects
  import opened Emission
  import opened Framing
  import opened Handshakes
  import opened Json
  import opened Noise
  import opened Protocol
  import opened Session
  import opened Utf8
  import opened Wrappers

  function Threading(c: Config, host: string): Config { c.(mode := Sync, endpoint := Some(host)) }

  function Looping(c: Config): Config { c.(mode := Async, endpoint := None) }

  /** A threading and an asyncio client, alike but for their endpoints. */
  ghost predicate Pair(c: Config, d: Config) { SameButKind(c, d) && c.mode.Sync? && d.mode.Async? }

  // ---------------------------------------------------------------- what has been handed over

  function TaskOf(f: Frame): Task { if f.CloseFrame? then CloseTask else EmitTask(f.msg) }

  function TasksOf(w: seq<Frame>): (r: seq<Task>)
    ensures |r| == |w| && forall i | 0 <= i < |w| :: r[i] == TaskOf(w[i])
  {
    seq(|w|, i requires 0 <= i < |w| => TaskOf(w[i]))
  }

  lemma TasksOfConcat(v: seq<Frame>, w: seq<Frame>)
    ensures TasksOf(v + w) == TasksOf(v) + TasksOf(w)
  {
  }

  lemma OnceHands(k: Basis, a: Act)
    ensures TasksOf(OnceFrames(k, a)) == Handed(a)
  {
  }

  lemma {:induction false} FramesHand(k: Basis, ts: seq<Task>)
    ensures TasksOf(Frames(k, ts)) == ts
    decreases ts
  {
    if ts != [] {
      FramesHand(Next(k, ts[0]), ts[1..]);
      TasksOfConcat([FrameOf(k, ts[0])], Frames(Next(k, ts[0]), ts[1..]));
      assert ts == [ts[0]] + ts[1..];
    }
  }

  /** The same session, but for how often a transport has been used. */
  predicate SameSession(b: Bus, d: Bus) {
    && b.connected == d.connected && b.established == d.established && b.cryptoKey == d.cryptoKey
    && (b.transport.None? <==> d.transport.None?)
    && (b.transport.Some? ==> b.transport.value == d.transport.value.(sendNonce := b.transport.value.sendNonce))
  }

  /** No connection and no session. */
  predicate Down(b: Bus) { !b.connected && !b.established && BasisOf(b) == BARE }

  /** The connection has ended while a close is still queued. */
  predicate Ending(x: Client, y: Client) { CloseTask in y.bus.tasks && !x.bus.closing }

  /**
   Clients that have been handed the same: what the threading client has sent, the asyncio client has sent or
   still has queued; the rest of their states is the same but for pins and nonces.
   */
  predicate Companions(x: Client, y: Client) {
    && Kin(x, y) && SameSession(x.bus, y.bus) && x.bus.tasks == [] && !y.bus.closing
    && TasksOf(x.bus.wire) == TasksOf(y.bus.wire) + y.bus.tasks
    && (x.bus.closing ==> CloseTask in y.bus.tasks) && (Ending(x, y) ==> Down(x.bus))
  }

  /**
   What can happen to both: a connection is lost with an exception, not by a loop that ends quietly; and once it
   is lost, nothing is received and no other opens before the loop has run a close that is still queued, because
   the receive loop is over and opening awaits the network.
   */
  predicate Orderly(x: Client, y: Client, e: Event) {
    && (e.Ended? ==> e.how.Raised?)
    && (Ending(x, y) ==> !e.Open? && !e.Shake?)
  }

  lemma ActKeepsSession(b: Bus, d: Bus, a: Act)
    requires SameSession(b, d)
    ensures SameSession(DoAct(Sync, b, a), DoAct(Async, d, a))
  {
  }

  lemma ActKeepsDown(b: Bus, a: Act)
    requires Down(b) && (a.Nothing? || a.Says?)
    ensures Down(DoAct(Sync, b, a))
  {
  }

  /** Once a connection is down little is left to do. */
  lemma EndingActs(d: Config, x: Client, y: Client, e: Event)
    requires Companions(x, y) && Orderly(x, y, e) && Ending(x, y)
    ensures ActOf(d, y, e).Nothing? || ActOf(d, y, e).Says?
  {
    hide ReceiveAct, ParamsAct, LegacyAct, RetryAct, Get, HasKey, TasksOf;
  }

  lemma ActCompanions(c: Config, d: Config, x: Client, y: Client, e: Event)
    requires Pair(c, d) && Companions(x, y) && Orderly(x, y, e) && !e.Turn? && !e.Ended?
    ensures var a, b := ActOf(c, x, e), ActOf(d, y, e);
            && TasksOf(Step(c, x, e).bus.wire) == TasksOf(x.bus.wire) + Handed(a)
            && Step(d, y, e).bus.wire == y.bus.wire && Step(d, y, e).bus.tasks == y.bus.tasks + Handed(b)
    ensures Decides(c, x, e) == Decides(d, y, e) ==> Companions(Step(c, x, e), Step(d, y, e))
  {
    hide Step, Decides, ActOf, OnceFrames, Handed, BasisOf, TasksOf, Frames, Orderly, Companions;
    var a, b := ActOf(c, x, e), ActOf(d, y, e);
    StepIsAct(c, x, e);
    StepIsAct(d, y, e);
    OnceDone(x.bus, a);
    QueueDone(y.bus, b);
    OnceHands(BasisOf(x.bus), a);
    TasksOfConcat(x.bus.wire, OnceFrames(BasisOf(x.bus), a));
    if Decides(c, x, e) == Decides(d, y, e) {
      CompanionsConnected(x, y);
      StepKin(c, d, x, y, e);
      if Ending(x, y) { EndingActs(d, x, y, e); }
      BusesStayCompanions(x, y, Step(c, x, e), Step(d, y, e), a);
    }
  }

  lemma CompanionsConnected(x: Client, y: Client)
    requires Companions(x, y)
    ensures Kin(x, y) && x.bus.connected == y.bus.connected
  {
    hide TasksOf, Kin;
  }

  /** Kin on which the same act has been done. */
  lemma BusesStayCompanions(x: Client, y: Client, x': Client, y': Client, a: Act)
    requires Companions(x, y) && Kin(x', y') && x'.bus == DoAct(Sync, x.bus, a) && y'.bus == DoAct(Async, y.bus, a)
    requires Ending(x, y) ==> a.Nothing? || a.Says?
    ensures Companions(x', y')
  {
    hide DoAct, OnceFrames, Handed, BasisOf, TasksOf, Kin, SameSession, Down;
    OnceDone(x.bus, a);
    QueueDone(y.bus, a);
    OnceHands(BasisOf(x.bus), a);
    TasksOfConcat(x.bus.wire, OnceFrames(BasisOf(x.bus), a));
    ActKeepsSession(x.bus, y.bus, a);
    AbortHandsClose(a);
    if Ending(x, y) { ActKeepsDown(x.bus, a); }
    AppendAssociates(TasksOf(y.bus.wire), y.bus.tasks, Handed(a));
  }

  lemma AbortHandsClose(a: Act)
    ensures a.Aborts? <==> CloseTask in Handed(a)
  {
    if a.Aborts? { assert Handed(a)[|Handed(a)| - 1] == CloseTask; }
  }

  lemma TurnCompanions(c: Config, d: Config, x: Client, y: Client)
    requires Pair(c, d) && Companions(x, y)
    ensures Companions(Step(c, x, Turn), Step(d, y, Turn))
    ensures Step(c, x, Turn).bus.wire == x.bus.wire && Step(d, y, Turn).bus.tasks == []
    ensures !Step(c, x, Turn).bus.closing
  {
    hide TasksOf, Frames, Rests, Drain;
    DrainFrames(y.bus);
    FramesHand(BasisOf(y.bus), y.bus.tasks);
    TasksOfConcat(y.bus.wire, Frames(BasisOf(y.bus), y.bus.tasks));
    if CloseTask in y.bus.tasks {
      NoBasisAfterClose(BasisOf(y.bus), y.bus.tasks);
    } else {
      RestsKeep(BasisOf(y.bus), y.bus.tasks);
    }
  }

  /** Messages use up nonces and nothing else. */
  lemma {:induction false} RestsKeep(k: Basis, ts: seq<Task>)
    requires CloseTask !in ts
    ensures var r := Rests(k, ts);
            && r.key == k.key && (r.transport.None? <==> k.transport.None?)
            && (r.transport.Some? ==> r.transport.value == k.transport.value.(sendNonce := r.transport.value.sendNonce))
    decreases ts
  {
    if ts != [] {
      assert ts[0].EmitTask?;
      RestsKeep(Next(k, ts[0]), ts[1..]);
    }
  }

  lemma EndCompanions(c: Config, d: Config, x: Client, y: Client)
    requires Pair(c, d) && Companions(x, y)
    ensures Companions(Step(c, x, Ended(Raised)), Step(d, y, Ended(Raised)))
    ensures Step(c, x, Ended(Raised)).bus.wire == x.bus.wire
    ensures var b := Step(d, y, Ended(Raised)).bus; b.wire == y.bus.wire && b.tasks == y.bus.tasks
  {
  }

  lemma NothingDecided(c: Config, s: Client, e: Event)
    requires e.Turn? || e.Ended?
    ensures Decides(c, s, e).NoLookup?
  {
  }

  /** The same has been handed over. */
  predicate HandedAlike(x: Client, y: Client) { TasksOf(x.bus.wire) == TasksOf(y.bus.wire) + y.bus.tasks }

  lemma HandedStep(c: Config, d: Config, x: Client, y: Client, e: Event)
    requires Pair(c, d) && Companions(x, y) && Orderly(x, y, e)
    ensures if Decides(c, x, e) == Decides(d, y, e) then Companions(Step(c, x, e), Step(d, y, e))
            else !HandedAlike(Step(c, x, e), Step(d, y, e))
  {
    hide Step, Decides, ActOf, Handed, TasksOf;
    if e.Turn? {
      TurnCompanions(c, d, x, y);
      NothingDecided(c, x, e);
      NothingDecided(d, y, e);
    } else if e.Ended? {
      EndCompanions(c, d, x, y);
      NothingDecided(c, x, e);
      NothingDecided(d, y, e);
    } else {
      ActCompanions(c, d, x, y, e);
      if Decides(c, x, e) != Decides(d, y, e) {
        DifferentDecisionsShow(c, d, x, y, e);
        SameTail(TasksOf(y.bus.wire) + y.bus.tasks, Handed(ActOf(c, x, e)), Handed(ActOf(d, y, e)));
        assert TasksOf(y.bus.wire) + (y.bus.tasks + Handed(ActOf(d, y, e)))
            == TasksOf(y.bus.wire) + y.bus.tasks + Handed(ActOf(d, y, e));
      }
    }
  }

  lemma SameTail<T>(a: seq<T>, b: seq<T>, c: seq<T>)
    ensures a + b == a + c ==> b == c
  {
    if a + b == a + c { assert (a + b)[|a|..] == b && (a + c)[|a|..] == c; }
  }

  // ---------------------------------------------------------------- over runs: the same messages

  ghost predicate OrderlyRun(c: Config, d: Config, x: Client, y: Client, es: seq<Event>)
    decreases es
  {
    es == [] || (Orderly(x, y, es[0]) && OrderlyRun(c, d, Step(c, x, es[0]), Step(d, y, es[0]), es[1..]))
  }

  /** Whenever a pin is looked up, both decide alike. */
  predicate Agreed(c: Config, d: Config, x: Client, y: Client, es: seq<Event>)
    decreases es
  {
    es == [] || (Decides(c, x, es[0]) == Decides(d, y, es[0])
                 && Agreed(c, d, Step(c, x, es[0]), Step(d, y, es[0]), es[1..]))
  }

  /** After the first n events the same has been handed over. */
  predicate HandedAt(c: Config, d: Config, x: Client, y: Client, es: seq<Event>, n: nat)
    requires n <= |es|
  {
    HandedAlike(After(c, x, es[..n]), After(d, y, es[..n]))
  }

  lemma HandedLater(c: Config, d: Config, x: Client, y: Client, es: seq<Event>, n: nat)
    requires 0 < n <= |es|
    ensures HandedAt(c, d, x, y, es, n) <==> HandedAt(c, d, Step(c, x, es[0]), Step(d, y, es[0]), es[1..], n - 1)
  {
    hide Step, HandedAlike;
    assert es[..n][1..] == es[1..][..n - 1] && es[..n][0] == es[0];
  }

  lemma HandedNow(c: Config, d: Config, x: Client, y: Client, es: seq<Event>)
    ensures HandedAt(c, d, x, y, es, 0) <==> HandedAlike(x, y)
  {
    hide HandedAlike;
    assert es[..0] == [];
  }

  /**
   Wherever the loop takes its turns: at every point of a run the messages and closes the threading client has
   sent are, in order, those the asyncio client has sent followed by those it has queued, exactly when both decide
   alike whenever they look up a pin.
   */
  lemma {:induction false} SameMessages(c: Config, d: Config, x: Client, y: Client, es: seq<Event>)
    requires Pair(c, d) && Companions(x, y) && OrderlyRun(c, d, x, y, es)
    ensures (forall n | 0 <= n <= |es| :: HandedAt(c, d, x, y, es, n)) <==> Agreed(c, d, x, y, es)
    ensures Agreed(c, d, x, y, es) ==> Companions(After(c, x, es), After(d, y, es))
    decreases es
  {
    hide Step, Decides, HandedAt, HandedAlike, Companions, Pair, Orderly;
    assert HandedAlike(x, y) by { CompanionsHanded(x, y); }
    HandedNow(c, d, x, y, es);
    if es != [] {
      var x', y', rest := Step(c, x, es[0]), Step(d, y, es[0]), es[1..];
      HandedStep(c, d, x, y, es[0]);
      HandedNow(c, d, x', y', rest);
      forall n | 0 < n <= |es| ensures HandedAt(c, d, x, y, es, n) <==> HandedAt(c, d, x', y', rest, n - 1) {
        HandedLater(c, d, x, y, es, n);
      }
      if Decides(c, x, es[0]) == Decides(d, y, es[0]) {
        SameMessages(c, d, x', y', rest);
        if forall n | 0 <= n <= |es| :: HandedAt(c, d, x, y, es, n) {
          forall n | 0 <= n <= |rest| ensures HandedAt(c, d, x', y', rest, n) {
            assert HandedAt(c, d, x, y, es, n + 1);
          }
        }
      } else {
        assert !HandedAt(c, d, x, y, es, 1);
      }
    }
  }

  lemma CompanionsHanded(x: Client, y: Client)
    requires Companions(x, y)
    ensures HandedAlike(x, y)
  {
  }

  function HandshakeIn(t: Task): seq<Msg> { if t.EmitTask? && IsHandshake(t.msg) then [t.msg] else [] }

  /** The HANDSHAKE messages among tasks. */
  function HandshakesIn(ts: seq<Task>): seq<Msg> {
    if ts == [] then [] else HandshakeIn(ts[0]) + HandshakesIn(ts[1..])
  }

  lemma {:induction false} HandshakesInConcat(a: seq<Task>, b: seq<Task>)
    ensures HandshakesIn(a + b) == HandshakesIn(a) + HandshakesIn(b)
  {
    hide HandshakeIn;
    if a == [] {
      assert a + b == b;
    } else {
      HandshakesInConcat(a[1..], b);
      assert (a + b)[1..] == a[1..] + b && (a + b)[0] == a[0];
      AppendAssociates(HandshakeIn(a[0]), HandshakesIn(a[1..]), HandshakesIn(b));
    }
  }

  /** In particular no HANDSHAKE is lost, added or moved. */
  lemma SameHandshakes(c: Config, d: Config, x: Client, y: Client, es: seq<Event>)
    requires Pair(c, d) && Companions(x, y) && OrderlyRun(c, d, x, y, es) && Agreed(c, d, x, y, es)
    ensures var u, v := After(c, x, es).bus, After(d, y, es).bus;
            HandshakesIn(TasksOf(u.wire)) == HandshakesIn(TasksOf(v.wire)) + HandshakesIn(v.tasks)
  {
    hide After, OrderlyRun, Agreed, Pair, Kin, SameSession, Ending, Down;
    SameMessages(c, d, x, y, es);
    var v := After(d, y, es).bus;
    HandshakesInConcat(TasksOf(v.wire), v.tasks);
  }

  // ---------------------------------------------------------------- over runs: the same frames

  /** What the asyncio client would have written by now is what the threading client has written. */
  predicate InStep(x: Client, y: Client) {
    && Companions(x, y)
    && x.bus.wire == y.bus.wire + Frames(BasisOf(y.bus), y.bus.tasks)
    && Awaited(BasisOf(x.bus), BasisOf(y.bus), y.bus.tasks)
  }

  /**
   The pins decide alike, and the step leaves frames alike: no message queued ahead of a close comes to be framed
   differently, no HANDSHAKE is handed over under a transport, and no message behind a queued close while there is
   a key or a transport.
   */
  predicate Guard(c: Config, d: Config, x: Client, y: Client, e: Event) {
    && Decides(c, x, e) == Decides(d, y, e)
    && (e.Ended? ==> SparesAtEnd(BasisOf(y.bus), y.bus.tasks))
    && (!e.Ended? && !e.Turn? ==> FramedAlike(BasisOf(x.bus), BasisOf(y.bus), y.bus.tasks, ActOf(d, y, e)))
  }

  predicate Guarded(c: Config, d: Config, x: Client, y: Client, es: seq<Event>)
    decreases es
  {
    es == [] || (Guard(c, d, x, y, es[0]) && Guarded(c, d, Step(c, x, es[0]), Step(d, y, es[0]), es[1..]))
  }

  /** The wires, once the asyncio loop has taken a turn. */
  predicate SameWire(d: Config, x: Client, y: Client) { x.bus.wire == Step(d, y, Turn).bus.wire }

  lemma SameWireIs(d: Config, x: Client, y: Client)
    requires d.mode.Async?
    ensures SameWire(d, x, y) <==> x.bus.wire == y.bus.wire + Frames(BasisOf(y.bus), y.bus.tasks)
  {
    DrainFrames(y.bus);
    hide Frames, BasisOf, Drain;
  }

  lemma SameWireHands(d: Config, x: Client, y: Client)
    requires d.mode.Async? && SameWire(d, x, y)
    ensures HandedAlike(x, y)
  {
    SameWireIs(d, x, y);
    FramesHand(BasisOf(y.bus), y.bus.tasks);
    TasksOfConcat(y.bus.wire, Frames(BasisOf(y.bus), y.bus.tasks));
    hide Frames, BasisOf, SameWire, TasksOf;
  }

  lemma ProperAct(c: Config, s: Client, e: Event)
    ensures Proper(ActOf(c, s, e))
  {
    hide Finished, Readable, Pinned, RemoteOf, PacketOf, Read, Written, Saw, Selection, ShouldUseNoise, Get, HasKey,
         Truthy,
         Begin, NoisePayload, OfferOf;
  }

  /** Two ways to extend the same frames. */
  lemma SplitFrames(w: seq<Frame>, a: seq<Frame>, b: seq<Frame>, p: seq<Frame>, q: seq<Frame>)
    requires |a| == |p|
    ensures w + a + b == w + (p + q) <==> a == p && b == q
  {
    assert w + p + q == w + (p + q);
    if w + a + b == w + p + q {
      assert (w + a + b)[|w|..|w| + |a|] == a && (w + p + q)[|w|..|w| + |p|] == p;
      assert (w + a + b)[|w| + |a|..] == b && (w + p + q)[|w| + |p|..] == q;
    }
  }

  lemma ActInStep(c: Config, d: Config, x: Client, y: Client, e: Event)
    requires Pair(c, d) && InStep(x, y) && Orderly(x, y, e) && !e.Turn? && !e.Ended?
    requires Decides(c, x, e) == Decides(d, y, e)
    ensures var x', y' := Step(c, x, e), Step(d, y, e);
            if FramedAlike(BasisOf(x.bus), BasisOf(y.bus), y.bus.tasks, ActOf(d, y, e)) then InStep(x', y')
            else !SameWire(d, x', y')
  {
    hide Step, Decides, ActOf, Frames, Rests, OnceFrames, OnceRests, QueueBasis, Handed, FramedAlike, Kin, TasksOf,
         Orderly;
    var x', y', a := Step(c, x, e), Step(d, y, e), ActOf(d, y, e);
    var k, l, ts := BasisOf(x.bus), BasisOf(y.bus), y.bus.tasks;
    HandedStep(c, d, x, y, e);
    StepKin(c, d, x, y, e);
    StepIsAct(c, x, e);
    StepIsAct(d, y, e);
    OnceDone(x.bus, a);
    QueueDone(y.bus, a);
    ProperAct(d, y, e);
    ActFramed(k, l, ts, a);
    FramesConcat(QueueBasis(l, a), ts, Handed(a));
    SplitFrames(y.bus.wire, Frames(l, ts), OnceFrames(k, a), Frames(QueueBasis(l, a), ts),
                Frames(Rests(QueueBasis(l, a), ts), Handed(a)));
    SameWireIs(d, x', y');
  }

  lemma TurnInStep(c: Config, d: Config, x: Client, y: Client)
    requires Pair(c, d) && InStep(x, y)
    ensures InStep(Step(c, x, Turn), Step(d, y, Turn))
  {
    TurnCompanions(c, d, x, y);
    hide Companions, Kin, Drain;
    DrainFrames(y.bus);
    if CloseTask in y.bus.tasks { NoBasisAfterClose(BasisOf(y.bus), y.bus.tasks); }
    CompanionsClose(x, y);
    CompanionsClose(Step(c, x, Turn), Step(d, y, Turn));
  }

  lemma CompanionsClose(x: Client, y: Client)
    requires Companions(x, y)
    ensures CloseTask !in y.bus.tasks ==> !x.bus.closing
    ensures Ending(x, y) ==> Down(x.bus)
    ensures x.bus.cryptoKey == y.bus.cryptoKey && (x.bus.transport.None? <==> y.bus.transport.None?)
  {
    hide Kin, TasksOf;
  }

  lemma EndInStep(c: Config, d: Config, x: Client, y: Client)
    requires Pair(c, d) && InStep(x, y)
    ensures var x', y' := Step(c, x, Ended(Raised)), Step(d, y, Ended(Raised));
            if SparesAtEnd(BasisOf(y.bus), y.bus.tasks) then InStep(x', y') else !SameWire(d, x', y')
  {
    EndCompanions(c, d, x, y);
    EndFramed(BasisOf(y.bus), y.bus.tasks);
    var x', y' := Step(c, x, Ended(Raised)), Step(d, y, Ended(Raised));
    assert BasisOf(x'.bus) == BARE && BasisOf(y'.bus) == BARE;
    SameWireIs(d, x', y');
    SplitFrames(y.bus.wire, Frames(BasisOf(y.bus), y.bus.tasks), [], Frames(BARE, y.bus.tasks), []);
    assert y.bus.wire + Frames(BasisOf(y.bus), y.bus.tasks) + [] == y.bus.wire + Frames(BasisOf(y.bus), y.bus.tasks);
    assert Frames(BARE, y.bus.tasks) + [] == Frames(BARE, y.bus.tasks);
    hide Companions, Frames, Rests, SparesAtEnd, SameWire;
  }

  /** One step: the wires stay the same exactly when the guard holds. */
  lemma FramedStep(c: Config, d: Config, x: Client, y: Client, e: Event)
    requires Pair(c, d) && InStep(x, y) && Orderly(x, y, e)
    ensures var x', y' := Step(c, x, e), Step(d, y, e);
            if Guard(c, d, x, y, e) then InStep(x', y') else !SameWire(d, x', y')
  {
    hide Step, Decides, ActOf, FramedAlike, SparesAtEnd, SameWire, Companions, BasisOf, Frames, Awaited;
    assert Companions(x, y);
    if e.Turn? {
      NothingDecided(c, x, e);
      NothingDecided(d, y, e);
      TurnInStep(c, d, x, y);
    } else if e.Ended? {
      NothingDecided(c, x, e);
      NothingDecided(d, y, e);
      EndInStep(c, d, x, y);
    } else if Decides(c, x, e) == Decides(d, y, e) {
      ActInStep(c, d, x, y, e);
    } else {
      HandedStep(c, d, x, y, e);
      if SameWire(d, Step(c, x, e), Step(d, y, e)) { SameWireHands(d, Step(c, x, e), Step(d, y, e)); }
    }
  }

  /** If the loop takes a turn after the first n events, the wires are the same. */
  predicate FramedAt(c: Config, d: Config, x: Client, y: Client, es: seq<Event>, n: nat)
    requires n <= |es|
  {
    After(c, x, es[..n]).bus.wire == After(d, y, es[..n] + [Turn]).bus.wire
  }

  lemma FramedLater(c: Config, d: Config, x: Client, y: Client, es: seq<Event>, n: nat)
    requires 0 < n <= |es|
    ensures FramedAt(c, d, x, y, es, n) <==> FramedAt(c, d, Step(c, x, es[0]), Step(d, y, es[0]), es[1..], n - 1)
  {
    hide Step;
    assert es[..n][1..] == es[1..][..n - 1] && es[..n][0] == es[0];
    assert (es[..n] + [Turn])[1..] == es[1..][..n - 1] + [Turn] && (es[..n] + [Turn])[0] == es[0];
  }

  lemma FramedNow(c: Config, d: Config, x: Client, y: Client, es: seq<Event>)
    ensures FramedAt(c, d, x, y, es, 0) <==> SameWire(d, x, y)
  {
    hide Step;
    assert es[..0] == [] && [] + [Turn] == [Turn];
    AfterOne(d, y, Turn);
  }

  lemma InStepWire(d: Config, x: Client, y: Client)
    requires d.mode.Async? && InStep(x, y)
    ensures SameWire(d, x, y)
  {
    SameWireIs(d, x, y);
    hide Companions, SameWire, Awaited;
  }

  /**
   Wherever the loop takes its turns: after every turn, and at any point a turn might be taken, both wires hold the
   same frames exactly when every step of the run is guarded.
   */
  lemma {:induction false} AsyncRefinesSync(c: Config, d: Config, x: Client, y: Client, es: seq<Event>)
    requires Pair(c, d) && InStep(x, y) && OrderlyRun(c, d, x, y, es)
    ensures (forall n | 0 <= n <= |es| :: FramedAt(c, d, x, y, es, n)) <==> Guarded(c, d, x, y, es)
    ensures Guarded(c, d, x, y, es) ==> InStep(After(c, x, es), After(d, y, es))
    decreases es
  {
    hide Step, Guard, FramedAt, SameWire, InStep, Orderly;
    InStepWire(d, x, y);
    FramedNow(c, d, x, y, es);
    if es != [] {
      var x', y', rest := Step(c, x, es[0]), Step(d, y, es[0]), es[1..];
      FramedStep(c, d, x, y, es[0]);
      FramedNow(c, d, x', y', rest);
      forall n | 0 < n <= |es| ensures FramedAt(c, d, x, y, es, n) <==> FramedAt(c, d, x', y', rest, n - 1) {
        FramedLater(c, d, x, y, es, n);
      }
      if Guard(c, d, x, y, es[0]) {
        AsyncRefinesSync(c, d, x', y', rest);
        if forall n | 0 <= n <= |es| :: FramedAt(c, d, x, y, es, n) {
          forall n | 0 <= n <= |rest| ensures FramedAt(c, d, x', y', rest, n) {
            assert FramedAt(c, d, x, y, es, n + 1);
          }
        }
      } else {
        assert !FramedAt(c, d, x, y, es, 1);
      }
    }
  }

  /** Once the same messages have been framed differently the wires differ for good, whatever follows. */
  lemma DifferentForGood(c: Config, d: Config, x: Client, y: Client, es: seq<Event>, fs: seq<Event>)
    requires HandedAlike(x, y) && y.bus.tasks == [] && x.bus.wire != y.bus.wire
    ensures After(c, x, es).bus.wire != After(d, y, fs).bus.wire
  {
    RunExtends(c, x, es);
    RunExtends(d, y, fs);
    var v, w := x.bus.wire, y.bus.wire;
    assert |TasksOf(v)| == |TasksOf(w)|;
    assert exists i :: 0 <= i < |v| && v[i] != w[i];
    hide After, TasksOf;
  }

  // ---------------------------------------------------------------- when every event is followed by a turn

  predicate Quiet(b: Bus) { b.tasks == [] && !b.closing }

  /** Alike in everything but the pins. */
  predicate Twins(x: Client, y: Client) { x == y.(pins := x.pins) }

  /** No HANDSHAKE is handed over while a transport is set. */
  predicate CalmStep(d: Config, y: Client, e: Event) { y.bus.transport.Some? ==> !HandsHandshake(ActOf(d, y, e)) }

  predicate MatchedStep(c: Config, d: Config, x: Client, y: Client, e: Event) {
    CalmStep(d, y, e) && Decides(c, x, e) == Decides(d, y, e)
  }

  predicate Matched(c: Config, d: Config, x: Client, y: Client, es: seq<Event>)
    decreases es
  {
    es == [] || (MatchedStep(c, d, x, y, es[0])
                 && Matched(c, d, Settled(c, x, es[0]), Settled(d, y, es[0]), es[1..]))
  }

  predicate Shared(e: Event) { e.Ended? ==> e.how.Raised? }

  lemma TwinsInStep(x: Client, y: Client)
    requires Twins(x, y) && Quiet(x.bus)
    ensures InStep(x, y)
  {
    hide TasksOf;
    assert TasksOf(y.bus.wire) + [] == TasksOf(y.bus.wire) && y.bus.wire + [] == y.bus.wire;
  }

  lemma InStepTwins(x: Client, y: Client)
    requires InStep(x, y) && y.bus.tasks == [] && !x.bus.closing
    ensures Twins(x, y) && Quiet(x.bus)
  {
    hide TasksOf;
    assert y.bus.wire + [] == y.bus.wire;
  }

  lemma GuardWhenQuiet(c: Config, d: Config, x: Client, y: Client, e: Event)
    requires y.bus.tasks == [] && (x.bus.transport.None? <==> y.bus.transport.None?)
    ensures Guard(c, d, x, y, e) <==> (e.Turn? || e.Ended? || CalmStep(d, y, e)) && Decides(c, x, e) == Decides(d, y, e)
  {
    hide Decides, ActOf, OnceRests;
  }

  lemma SettledStep(c: Config, d: Config, x: Client, y: Client, e: Event)
    requires Pair(c, d) && Twins(x, y) && Quiet(x.bus) && Shared(e)
    ensures var u, v := Settled(c, x, e), Settled(d, y, e);
            if MatchedStep(c, d, x, y, e) then Twins(u, v) && Quiet(u.bus) else u.bus.wire != v.bus.wire
  {
    hide Step, Decides, ActOf, Guard, InStep, HandsHandshake, SameWire;
    TwinsInStep(x, y);
    var x', y' := Step(c, x, e), Step(d, y, e);
    FramedStep(c, d, x, y, e);
    GuardWhenQuiet(c, d, x, y, e);
    TurnActs(d, y, e);
    if Guard(c, d, x, y, e) {
      TurnInStep(c, d, x', y');
      InStepTurned(c, d, x', y');
      InStepTwins(Step(c, x', Turn), Step(d, y', Turn));
    } else {
      TurnWrites(c, x');
      assert SameWire(d, x', y') <==> x'.bus.wire == Step(d, y', Turn).bus.wire by { SameWireMeans(d, x', y'); }
    }
  }

  lemma SameWireMeans(d: Config, x: Client, y: Client)
    ensures SameWire(d, x, y) <==> x.bus.wire == Step(d, y, Turn).bus.wire
  {
    hide Step;
  }

  lemma TurnActs(d: Config, y: Client, e: Event)
    ensures e.Turn? || e.Ended? ==> !HandsHandshake(ActOf(d, y, e))
  {
    hide ReceiveAct, ParamsAct, LegacyAct, RetryAct;
  }

  lemma TurnWrites(c: Config, x: Client)
    requires c.mode.Sync?
    ensures Step(c, x, Turn).bus.wire == x.bus.wire
  {
  }

  lemma InStepTurned(c: Config, d: Config, x: Client, y: Client)
    requires Pair(c, d) && InStep(x, y)
    ensures Step(d, y, Turn).bus.tasks == [] && !Step(c, x, Turn).bus.closing
  {
    hide Companions, Step;
    TurnCompanions(c, d, x, y);
  }

  /** The same frames are on both wires after the first n events, each with its turn. */
  predicate SettledAt(c: Config, d: Config, x: Client, y: Client, es: seq<Event>, n: nat)
    requires n <= |es|
  {
    AfterSettled(c, x, es[..n]).bus.wire == AfterSettled(d, y, es[..n]).bus.wire
  }

  lemma SettledLater(c: Config, d: Config, x: Client, y: Client, es: seq<Event>, n: nat)
    requires 0 < n <= |es|
    ensures SettledAt(c, d, x, y, es, n)
       <==> SettledAt(c, d, Settled(c, x, es[0]), Settled(d, y, es[0]), es[1..], n - 1)
  {
    hide Settled;
    assert es[..n][1..] == es[1..][..n - 1] && es[..n][0] == es[0];
  }

  lemma SettledNow(c: Config, d: Config, x: Client, y: Client, es: seq<Event>)
    ensures SettledAt(c, d, x, y, es, 0) <==> x.bus.wire == y.bus.wire
  {
    assert es[..0] == [];
  }

  /**
   When the loop takes its turn after every event, the guard is that no HANDSHAKE is handed over under a transport
   and that both decide alike whenever they look up a pin; the states are then alike too.
   */
  lemma {:induction false} SettledRefines(c: Config, d: Config, x: Client, y: Client, es: seq<Event>)
    requires Pair(c, d) && Twins(x, y) && Quiet(x.bus) && forall i | 0 <= i < |es| :: Shared(es[i])
    ensures (forall n | 0 <= n <= |es| :: SettledAt(c, d, x, y, es, n)) <==> Matched(c, d, x, y, es)
    ensures Matched(c, d, x, y, es) ==> Twins(AfterSettled(c, x, es), AfterSettled(d, y, es))
    decreases es
  {
    hide Settled, MatchedStep, SettledAt, Shared, Quiet, Pair;
    SettledNow(c, d, x, y, es);
    if es != [] {
      assert Shared(es[0]);
      var u, v, rest := Settled(c, x, es[0]), Settled(d, y, es[0]), es[1..];
      SettledStep(c, d, x, y, es[0]);
      SettledNow(c, d, u, v, rest);
      forall n | 0 < n <= |es| ensures SettledAt(c, d, x, y, es, n) <==> SettledAt(c, d, u, v, rest, n - 1) {
        SettledLater(c, d, x, y, es, n);
      }
      if MatchedStep(c, d, x, y, es[0]) {
        assert forall i | 0 <= i < |rest| :: rest[i] == es[i + 1];
        SettledRefines(c, d, u, v, rest);
        if forall n | 0 <= n <= |es| :: SettledAt(c, d, x, y, es, n) {
          forall n | 0 <= n <= |rest| ensures SettledAt(c, d, u, v, rest, n) {
            assert SettledAt(c, d, x, y, es, n + 1);
          }
        }
      } else {
        assert !SettledAt(c, d, x, y, es, 1);
      }
    }
  }

  // ---------------------------------------------------------------- when the lookups agree

  predicate SameLookup(c: Config, d: Config, x: Client, y: Client) { Pinned(c, x) == Pinned(d, y) }

  lemma SelectionByLookup(c: Config, d: Config, s: Client, t: Client, payload: seq<Field>)
    requires Pinned(c, s) == Pinned(d, t)
    ensures Selection(c, s, payload) == Selection(d, t, payload)
  {
    hide Pinned, Get, Offered, SelectNoiseOptions;
  }

  /** The same pin, or none, makes for the same decision. */
  lemma SameLookupDecides(c: Config, d: Config, x: Client, y: Client, e: Event)
    requires SameButKind(c, d) && Kin(x, y) && x.bus.connected == y.bus.connected && SameLookup(c, d, x, y)
    ensures Decides(c, x, e) == Decides(d, y, e)
  {
    hide Pinned, Selection, Read, Written, Finished, Saw, RemoteOf, Get, HasKey, Asks, PacketOf;
    match e
    case Shake(fields, _) =>
      AsksAlike(c, d, fields);
      SamePacket(c, d, fields);
      SelectionByLookup(c, d, x, y, fields);
    case Retry(_) =>
      if x.params.Some? && x.params.value.Obj? {
        AsksAlike(c, d, x.params.value.fields);
        SelectionByLookup(c, d, x, y, x.params.value.fields);
      }
    case _ =>
  }

  predicate Offers(payload: seq<Field>, pattern: string) {
    var noise := Get(payload, "noise");
    && noise.Obj? && pattern in Offered(Get(noise.fields, "patterns"))
    && exists suite :: suite in NOISE_SUITES && suite in Offered(Get(noise.fields, "suites"))
  }

  lemma ProposesKK(c: Config, s: Client, payload: seq<Field>)
    requires Offers(payload, NOISE_PATTERN_KK) && s.nodeId.Str?
    ensures var d := Proposal(c, s, payload);
            && (Pinned(c, s).Some? ==> d.Proposes? && d.pattern == NOISE_PATTERN_KK && d.expected == Pinned(c, s))
            && (Pinned(c, s).None? ==> !(d.Proposes? && d.pattern == NOISE_PATTERN_KK))
            && (Pinned(c, s).None? && Offers(payload, NOISE_PATTERN_XX) ==>
                  d.Proposes? && d.pattern == NOISE_PATTERN_XX)
  {
    var fields := Get(payload, "noise").fields;
    var patterns, suites := Offered(Get(fields, "patterns")), Offered(Get(fields, "suites"));
    PinnedNonEmpty(c, s);
    SelectionMeaning(patterns, suites, Pinned(c, s));
    SuitesNamed();
    hide Pinned, Get, Offered, SelectNoiseOptions;
    assert NOISE_PATTERN_KK[0] != NOISE_PATTERN_XX[0];
    assert Selection(c, s, payload) == SelectNoiseOptions(patterns, suites, Pinned(c, s));
    SelectsWhich(c, s, payload);
  }

  lemma SelectsWhich(c: Config, s: Client, payload: seq<Field>)
    ensures Selection(c, s, payload).Some? ==>
              var pattern := Selection(c, s, payload).value.0;
              pattern == NOISE_PATTERN_KK || pattern == NOISE_PATTERN_XX
  {
    if Selection(c, s, payload).Some? { SelectsRegistered(c, s, payload); }
  }

  lemma SuitesNamed()
    ensures forall suite :: suite in NOISE_SUITES <==> suite == NOISE_SUITE_CHACHA || suite == NOISE_SUITE_AESGCM
  {
  }

  /** Where a server offers KK, deciding alike takes the same lookup. */
  lemma KKNeedsSameLookup(c: Config, d: Config, x: Client, y: Client, payload: seq<Field>)
    requires SameButKind(c, d) && Kin(x, y) && Offers(payload, NOISE_PATTERN_KK) && x.nodeId.Str?
    ensures Proposal(c, x, payload) == Proposal(d, y, payload) <==> SameLookup(c, d, x, y)
  {
    ProposesKK(c, x, payload);
    ProposesKK(d, y, payload);
    if SameLookup(c, d, x, y) { SelectionByLookup(c, d, x, y, payload); }
    hide Pinned, Selection, Offers;
  }

  /** The key a client without a pin learns in a step. */
  function Learned(c: Config, s: Client, e: Event): Option<string> {
    if Decides(c, s, e).Accepts? && e.Shake? && s.handshake.Some? && Replied(c, s, e.fields, e.ephemeral).Some?
    then RemoteOf(Replied(c, s, e.fields, e.ephemeral).value) else None
  }

  lemma CompleteLearns(c: Config, s: Client, payload: seq<byte>)
    requires s.handshake.Some? && Pinned(c, s).None?
    ensures var remote := RemoteOf(s.handshake.value);
            Complete(c, s, payload).pins
            == if Finished(s.handshake.value) && remote.Some? then s.pins[PinId(c, s) := remote.value] else s.pins
  {
    hide Finished, RemoteOf, Readable, PinId, Emit;
  }

  lemma ReceiveLearns(c: Config, s: Client, fields: seq<Field>, ephemeral: nat)
    requires s.handshake.Some? && Pinned(c, s).None?
    ensures var r := Replied(c, s, fields, ephemeral);
            ReceiveNoise(c, s, fields, ephemeral).pins
            == if r.Some? && Finished(r.value) && RemoteOf(r.value).Some?
               then s.pins[PinId(c, s) := RemoteOf(r.value).value]
               else s.pins
  {
    hide Read, Written, Complete, Finished, Saw, RemoteOf, Pinned, PinId, Get, Reply;
    var p := PacketOf(c, fields);
    if p.Some? && Read(s.handshake.value, p.value).Some? {
      var h := Read(s.handshake.value, p.value).value;
      ReplyKin(c, s, h, ephemeral);
      SamePinId(c, s, Reply(c, s, h, ephemeral));
      CompleteLearns(c, Reply(c, s, h, ephemeral), p.value.payload);
    }
  }

  lemma SamePinId(c: Config, s: Client, s1: Client)
    requires s1.handshake.Some? && s1 == s.(handshake := s1.handshake, bus := s1.bus)
    ensures PinId(c, s1) == PinId(c, s)
  {
    hide Truthy;
  }

  lemma StepLearns(c: Config, s: Client, e: Event)
    requires Pinned(c, s).None?
    ensures var learned := Learned(c, s, e);
            Step(c, s, e).pins == if learned.Some? then s.pins[PinId(c, s) := learned.value] else s.pins
  {
    hide ReceiveNoise, Read, Written, Finished, Saw, RemoteOf, Pinned, PinId, Get, HasKey, Truthy, Proposal, Replied,
         Drain,
         StartNoise, ShouldUseNoise, Asks, Emit;
    match e
    case Shake(fields, ephemeral) =>
      if HasKey(fields, "noise") && s.handshake.Some? {
        ReceiveLearns(c, s, fields, ephemeral);
      } else {
        ParamsPins(c, s, fields, ephemeral);
        NoVerdict(c, s, fields);
      }
    case Retry(ephemeral) =>
      if s.params.Some? && s.params.value.Obj? { StartPins(c, s, s.params.value.fields, ephemeral); }
    case _ =>
  }

  lemma NoVerdict(c: Config, s: Client, payload: seq<Field>)
    ensures !Proposal(c, s, payload).Accepts?
  {
    hide Selection, Pinned;
  }

  lemma StartPins(c: Config, s: Client, payload: seq<Field>, ephemeral: nat)
    ensures StartNoise(c, s, payload, ephemeral).pins == s.pins
  {
    hide Selection, Written, Saw, Begin, OfferOf, NoisePayload, Pinned, Emit;
  }

  lemma ParamsPins(c: Config, s: Client, payload: seq<Field>, ephemeral: nat)
    ensures ReceiveParams(c, s, payload, ephemeral).pins == s.pins
  {
    hide StartNoise, ShouldUseNoise, Get, HasKey, Truthy, Emit;
    StartPins(c, s.(binarize := if HasKey(payload, "binarize") then Get(payload, "binarize") else Bool(false),
                    params := Some(Obj(payload))), payload, ephemeral);
  }

  lemma LookupAfter(c: Config, s: Client, e: Event)
    requires Identified(c, s)
    ensures var learned := Learned(c, s, e);
            Pinned(c, Step(c, s, e)) == if Pinned(c, s).Some? || learned.None? then Pinned(c, s) else learned
  {
    hide Step, Truthy, Learned, PinsKept;
    PinIdKept(c, s, e);
    StepKeepsPins(c, s, e);
    if Pinned(c, s).Some? {
      PinnedKept(c, s, Step(c, s, e));
    } else {
      StepLearns(c, s, e);
      LearnedNonEmpty(c, s, e);
    }
  }

  lemma LearnedNonEmpty(c: Config, s: Client, e: Event)
    ensures Learned(c, s, e).Some? ==> Learned(c, s, e).value != ""
  {
    hide Decides, Replied;
  }

  /** Once the pin identifiers are settled, lookups that agree go on agreeing. */
  lemma LookupsStayAlike(c: Config, d: Config, x: Client, y: Client, e: Event)
    requires SameButKind(c, d) && Kin(x, y) && x.bus.connected == y.bus.connected && SameLookup(c, d, x, y)
    requires Identified(c, x) && Identified(d, y)
    ensures SameLookup(c, d, Step(c, x, e), Step(d, y, e)) && Identified(c, Step(c, x, e))
            && Identified(d, Step(d, y, e))
  {
    hide Step, Decides, Truthy, Pinned, Identified;
    LookupAfter(c, x, e);
    LookupAfter(d, y, e);
    PinIdKept(c, x, e);
    PinIdKept(d, y, e);
    SameLookupDecides(c, d, x, y, e);
    SameReply(c, d, x, y, e);
  }

  lemma SameReply(c: Config, d: Config, x: Client, y: Client, e: Event)
    requires Kin(x, y) && SameButKind(c, d) && Decides(c, x, e) == Decides(d, y, e)
    ensures Learned(c, x, e) == Learned(d, y, e)
  {
    hide Decides, Read, Written, Finished, Saw, RemoteOf, Get, PacketOf;
    if e.Shake? { SamePacket(c, d, e.fields); }
  }

  /**
   When HELLO has named the server, or both have an endpoint, and both clients have the same pin for it, or none, as
   from empty stores, the pins never come between them: the same messages are handed over throughout.
   */
  lemma {:induction false} NamedClientsAgree(c: Config, d: Config, x: Client, y: Client, es: seq<Event>)
    requires Pair(c, d) && Companions(x, y) && OrderlyRun(c, d, x, y, es)
    requires SameLookup(c, d, x, y) && Identified(c, x) && Identified(d, y)
    ensures Agreed(c, d, x, y, es)
    decreases es
  {
    if es != [] {
      hide Step, Decides, Orderly, SameLookup, Identified, TasksOf;
      assert x.bus.connected == y.bus.connected;
      SameLookupDecides(c, d, x, y, es[0]);
      HandedStep(c, d, x, y, es[0]);
      LookupsStayAlike(c, d, x, y, es[0]);
      NamedClientsAgree(c, d, Step(c, x, es[0]), Step(d, y, es[0]), es[1..]);
    }
  }

  /** No HANDSHAKE is handed over under a transport, with a turn after every event. */
  predicate Calm(d: Config, y: Client, es: seq<Event>)
    decreases es
  {
    es == [] || (CalmStep(d, y, es[0]) && Calm(d, Settled(d, y, es[0]), es[1..]))
  }

  /** Every event followed by a turn. */
  function Woven(es: seq<Event>): seq<Event> { if es == [] then [] else [es[0], Turn] + Woven(es[1..]) }

  lemma {:induction false} SettledIsRun(c: Config, s: Client, es: seq<Event>)
    ensures AfterSettled(c, s, es) == After(c, s, Woven(es))
    decreases es
  {
    hide Step;
    if es != [] {
      var rest := Woven(es[1..]);
      SettledIsRun(c, Settled(c, s, es[0]), es[1..]);
      assert Woven(es)[1..] == [Turn] + rest && ([Turn] + rest)[1..] == rest;
    }
  }

  /** Wires set apart by the same messages stay apart. */
  lemma ApartForGood(c: Config, d: Config, x: Client, y: Client, es: seq<Event>)
    requires Pair(c, d) && Twins(x, y) && Quiet(x.bus) && es != [] && Shared(es[0])
    requires Decides(c, x, es[0]) == Decides(d, y, es[0])
    requires Settled(c, x, es[0]).bus.wire != Settled(d, y, es[0]).bus.wire
    ensures AfterSettled(c, x, es).bus.wire != AfterSettled(d, y, es).bus.wire
  {
    assert y.bus.tasks == [];
    hide Step, Decides, Settled, InStep, Orderly, HandedAlike, Shared;
    TwinsInStep(x, y);
    OrderlyWhenQuiet(x, y, es[0]);
    SettledHands(c, d, x, y, es[0]);
    SettledIsRun(c, Settled(c, x, es[0]), es[1..]);
    SettledIsRun(d, Settled(d, y, es[0]), es[1..]);
    DifferentForGood(c, d, Settled(c, x, es[0]), Settled(d, y, es[0]), Woven(es[1..]), Woven(es[1..]));
  }

  /** With a turn after every event, only a HANDSHAKE under a transport then sets the wires apart, and for good. */
  lemma {:induction false} NamedClientsRefine(c: Config, d: Config, x: Client, y: Client, es: seq<Event>)
    requires Pair(c, d) && Twins(x, y) && Quiet(x.bus) && forall i | 0 <= i < |es| :: Shared(es[i])
    requires SameLookup(c, d, x, y) && Identified(c, x) && Identified(d, y)
    ensures Matched(c, d, x, y, es) <==> Calm(d, y, es)
    ensures (forall n | 0 <= n <= |es| :: SettledAt(c, d, x, y, es, n)) <==> Calm(d, y, es)
    ensures AfterSettled(c, x, es).bus.wire == AfterSettled(d, y, es).bus.wire ==> Calm(d, y, es)
    decreases es
  {
    SettledRefines(c, d, x, y, es);
    if es != [] {
      hide Step, Decides, CalmStep, SettledAt, Shared, Quiet, SameLookup, Identified, Companions;
      assert Shared(es[0]);
      SameLookupDecides(c, d, x, y, es[0]);
      SettledStep(c, d, x, y, es[0]);
      LookupsStayAlike(c, d, x, y, es[0]);
      if CalmStep(d, y, es[0]) {
        TurnKeepsLookups(c, d, x, y, es[0]);
        assert forall i | 0 <= i < |es| - 1 :: es[1..][i] == es[i + 1];
        NamedClientsRefine(c, d, Settled(c, x, es[0]), Settled(d, y, es[0]), es[1..]);
      } else {
        ApartForGood(c, d, x, y, es);
      }
    }
  }

  lemma TurnKeepsLookups(c: Config, d: Config, x: Client, y: Client, e: Event)
    requires SameLookup(c, d, Step(c, x, e), Step(d, y, e)) && Identified(c, Step(c, x, e))
             && Identified(d, Step(d, y, e))
    ensures var u, v := Settled(c, x, e), Settled(d, y, e);
            SameLookup(c, d, u, v) && Identified(c, u) && Identified(d, v)
  {
    hide HandleHello, HandleHandshake, StartHandshake, Drain, Say, Truthy;
  }

  /** Empty stores look alike. */
  lemma EmptyStoresLookAlike(c: Config, d: Config, x: Client, y: Client)
    requires x.pins == map[] && y.pins == map[]
    ensures SameLookup(c, d, x, y)
  {
  }

  // ---------------------------------------------------------------- runs that set the wires apart

  /**
   One store, with a key pinned under the endpoint and none under the node id: offered both patterns, the
   threading client proposes KK and the asyncio client XX, though no transport is set.
   */
  lemma PinsUnderDifferentIds(c: Config, host: string, s: Client, key: string, payload: seq<Field>, ephemeral: nat)
    requires Quiet(s.bus) && s.bus.transport.None? && s.handshake.None? && s.nodeId.Str? && s.nodeId.s != ""
    requires s.nodeId.s != host && key != "" && s.pins == map[Str(host) := key]
    requires Asks(c, payload) && !HasKey(payload, "envelope")
    requires Offers(payload, NOISE_PATTERN_KK) && Offers(payload, NOISE_PATTERN_XX)
    ensures var e := Shake(payload, ephemeral);
            var x, y := Decides(Threading(c, host), s, e), Decides(Looping(c), s, e);
            && x.Proposes? && x.pattern == NOISE_PATTERN_KK && x.expected == Some(key)
            && y.Proposes? && y.pattern == NOISE_PATTERN_XX
            && CalmStep(Looping(c), s, e)
            && Settled(Threading(c, host), s, e).bus.wire != Settled(Looping(c), s, e).bus.wire
  {
    hide Pinned, Proposal, Asks, Offers, Step, Settled, HasKey, Get, CalmStep, Quiet;
    var e := Shake(payload, ephemeral);
    AsksAlike(c, Threading(c, host), payload);
    AsksAlike(c, Looping(c), payload);
    LookupsDiffer(c, host, s, key);
    ProposesKK(Threading(c, host), s, payload);
    ProposesKK(Looping(c), s, payload);
    assert NOISE_PATTERN_KK[0] != NOISE_PATTERN_XX[0];
    CalmWithoutTransport(Looping(c), s, e);
    SettledStep(Threading(c, host), Looping(c), s, s, e);
  }

  lemma LookupsDiffer(c: Config, host: string, s: Client, key: string)
    requires s.nodeId.Str? && s.nodeId.s != "" && s.nodeId.s != host && key != "" && s.pins == map[Str(host) := key]
    ensures Pinned(Threading(c, host), s) == Some(key) && Pinned(Looping(c), s) == None
  {
  }

  lemma CalmWithoutTransport(d: Config, y: Client, e: Event)
    requires y.bus.transport.None?
    ensures CalmStep(d, y, e)
  {
  }

  lemma AfterThree(c: Config, s: Client, e: Event, f: Event, g: Event)
    ensures After(c, s, [e, f, g]) == Step(c, Step(c, Step(c, s, e), f), g)
    ensures After(c, s, [e, f]) == Step(c, Step(c, s, e), f)
  {
    hide Step;
    assert [e, f, g][1..] == [f, g] && [e, f][1..] == [f];
    AfterOne(c, s, e);
    AfterOne(c, Step(c, s, e), f);
    AfterOne(c, Step(c, Step(c, s, e), f), g);
    assert After(c, Step(c, s, e), [f, g]) == After(c, Step(c, Step(c, s, e), f), [g]) by { assert [f, g][1..] == [g]; }
  }

  /**
   A retry and then a legacy envelope before the loop takes its turn: the threading client has sent its offer in
   the clear, the asyncio client sends it encrypted. No transport is set and no pin is looked up.
   */
  lemma QueuedOfferIsEncrypted(c: Config, host: string, s: Client, fields: seq<Field>, key: nat, ephemeral: nat)
    requires Quiet(s.bus) && s.bus.connected && BasisOf(s.bus) == BARE && s.params.None? && s.handshake.None?
    requires HasKey(fields, "envelope") && c.openEnvelope(Get(fields, "envelope"), s.mpubkey) == Some(key)
    ensures var run := [Retry(ephemeral), Shake(fields, ephemeral), Turn];
            var offer := LegacyOffer(s.binarize, c.password != "");
            && After(Threading(c, host), s, run).bus.wire == s.bus.wire + [Clear(offer), Legacy(key, SessionHello)]
            && After(Looping(c), s, run).bus.wire == s.bus.wire + [Legacy(key, offer), Legacy(key, SessionHello)]
    ensures Decides(Looping(c), s, Retry(ephemeral)).NoLookup?
    ensures Decides(Looping(c), Step(Looping(c), s, Retry(ephemeral)), Shake(fields, ephemeral)).NoLookup?
  {
    hide HasKey, Get, Drain;
    var offer := LegacyOffer(s.binarize, c.password != "");
    var e, f := Retry(ephemeral), Shake(fields, ephemeral);
    AfterThree(Threading(c, host), s, e, f, Turn);
    AfterThree(Looping(c), s, e, f, Turn);
    OfferThenUnlock(Threading(c, host), s, fields, key, ephemeral);
    OfferThenUnlock(Looping(c), s, fields, key, ephemeral);
    var b := Step(Looping(c), Step(Looping(c), s, e), f).bus;
    assert s.bus.tasks + [EmitTask(offer)] + [EmitTask(SessionHello)] == [EmitTask(offer)] + [EmitTask(SessionHello)];
    DrainFrames(b);
    TwoFrames(BasisOf(b), EmitTask(offer), EmitTask(SessionHello));
    assert s.bus.wire + [Clear(offer)] + [Legacy(key, SessionHello)]
           == s.bus.wire + [Clear(offer), Legacy(key, SessionHello)];
  }

  lemma OfferThenUnlock(c: Config, s: Client, fields: seq<Field>, key: nat, ephemeral: nat)
    requires s.bus.connected && s.params.None? && s.handshake.None?
    requires HasKey(fields, "envelope") && c.openEnvelope(Get(fields, "envelope"), s.mpubkey) == Some(key)
    ensures var s1 := Step(c, s, Retry(ephemeral));
            && s1 == s.(bus := Emit(c.mode, s.bus, LegacyOffer(s.binarize, c.password != "")))
            && Step(c, s1, Shake(fields, ephemeral)).bus
               == Emit(c.mode, s1.bus.(cryptoKey := Some(key)), SessionHello).(established := true)
  {
    hide HasKey, Get, Emit;
  }

  /**
   Parameters that come in over an established session and lead to a proposal: the threading client seals its
   offer, the asyncio client does not, and the wires differ for good.
   */
  lemma RenegotiationSetsApart(c: Config, d: Config, x: Client, y: Client, fields: seq<Field>, ephemeral: nat,
                               es: seq<Event>, fs: seq<Event>)
    requires Pair(c, d) && Twins(x, y) && Quiet(x.bus) && x.bus.transport.Some? && x.handshake.None?
    requires !HasKey(fields, "envelope") && Asks(c, fields)
    requires Proposal(c, x, fields).Proposes? && Proposal(d, y, fields) == Proposal(c, x, fields)
    ensures var e := Shake(fields, ephemeral);
            var u, v := Settled(c, x, e), Settled(d, y, e);
            u.bus.wire != v.bus.wire && After(c, u, es).bus.wire != After(d, v, fs).bus.wire
  {
    hide Step, Proposal, Asks, HasKey, Get, Companions, InStep, ParamsAct, Handed, TasksOf, Orderly;
    var e := Shake(fields, ephemeral);
    AsksAlike(c, d, fields);
    ParamsProposes(d, y, fields, ephemeral);
    assert HandsHandshake(ActOf(d, y, e));
    SettledStep(c, d, x, y, e);
    TwinsInStep(x, y);
    OrderlyWhenQuiet(x, y, e);
    SettledHands(c, d, x, y, e);
    DifferentForGood(c, d, Settled(c, x, e), Settled(d, y, e), es, fs);
  }

  lemma OrderlyWhenQuiet(x: Client, y: Client, e: Event)
    requires y.bus.tasks == [] && Shared(e)
    ensures Orderly(x, y, e)
  {
  }

  lemma SettledHands(c: Config, d: Config, x: Client, y: Client, e: Event)
    requires Pair(c, d) && InStep(x, y) && Orderly(x, y, e) && Decides(c, x, e) == Decides(d, y, e)
    ensures HandedAlike(Settled(c, x, e), Settled(d, y, e)) && Settled(d, y, e).bus.tasks == []
  {
    hide Step, Decides, Companions, Orderly;
    HandedStep(c, d, x, y, e);
    TurnCompanions(c, d, Step(c, x, e), Step(d, y, e));
    CompanionsHanded(Settled(c, x, e), Settled(d, y, e));
  }
}
