/** How queued messages are framed when their turn comes, compared with how they would have been framed at once. */
module Framing {
  import opened BusClients
  import opened Effects
  import opened Utf8
  import opened Wrappers

  /** What framing depends on. */
  datatype Basis = Basis(key: Option<nat>, transport: Option<BusClients.Session>)

  function BasisOf(b: Bus): Basis { Basis(b.cryptoKey, b.transport) }

  const BARE := Basis(None, None)

  function Plain(k: Basis, m: Msg): Frame { if k.key.Some? then Legacy(k.key.value, m) else Clear(m) }

  /** Whether an asyncio client seals the message. */
  predicate Seals(k: Basis, m: Msg) { k.transport.Some? && !IsHandshake(m) }

  /** The frame of a task when its turn comes. */
  function FrameOf(k: Basis, t: Task): Frame {
    match t
    case CloseTask => CloseFrame
    case EmitTask(m) =>
      if Seals(k, m) then Sealed(k.transport.value.transcript, k.transport.value.sendNonce, m) else Plain(k, m)
  }

  function Next(k: Basis, t: Task): Basis {
    match t
    case CloseTask => BARE
    case EmitTask(m) =>
      if Seals(k, m) then k.(transport := Some(k.transport.value.(sendNonce := k.transport.value.sendNonce + 1))) else k
  }

  function Frames(k: Basis, ts: seq<Task>): (r: seq<Frame>)
    ensures |r| == |ts|
    decreases ts
  {
    if ts == [] then [] else [FrameOf(k, ts[0])] + Frames(Next(k, ts[0]), ts[1..])
  }

  function Rests(k: Basis, ts: seq<Task>): Basis
    decreases ts
  {
    if ts == [] then k else Rests(Next(k, ts[0]), ts[1..])
  }

  lemma RunTaskFrames(b: Bus, t: Task)
    ensures RunTask(b, t).wire == b.wire + [FrameOf(BasisOf(b), t)] && BasisOf(RunTask(b, t)) == Next(BasisOf(b), t)
    ensures RunTask(b, t).tasks == b.tasks && RunTask(b, t).closing == b.closing
    ensures t.EmitTask? ==> RunTask(b, t).connected == b.connected && RunTask(b, t).established == b.established
    ensures t.CloseTask? ==> !RunTask(b, t).connected && !RunTask(b, t).established
  {
  }

  /** A turn of the asyncio loop writes the frames of the queue. */
  lemma {:induction false} DrainFrames(b: Bus)
    ensures Drain(b).wire == b.wire + Frames(BasisOf(b), b.tasks) && BasisOf(Drain(b)) == Rests(BasisOf(b), b.tasks)
    ensures Drain(b).closing == b.closing
    ensures if CloseTask in b.tasks then !Drain(b).connected && !Drain(b).established
            else Drain(b).connected == b.connected && Drain(b).established == b.established
    decreases |b.tasks|
  {
    if b.tasks != [] {
      hide FrameOf, Next, RunTask;
      var rest := b.(tasks := b.tasks[1..]);
      RunTaskFrames(rest, b.tasks[0]);
      assert b.tasks == [b.tasks[0]] + b.tasks[1..];
      var b' := RunTask(rest, b.tasks[0]);
      DrainFrames(b');
      assert BasisOf(rest) == BasisOf(b);
      assert b.wire + [FrameOf(BasisOf(b), b.tasks[0])] + Frames(BasisOf(b'), b.tasks[1..])
          == b.wire + Frames(BasisOf(b), b.tasks);
    }
  }

  lemma {:induction false} FramesConcat(k: Basis, a: seq<Task>, b: seq<Task>)
    ensures Frames(k, a + b) == Frames(k, a) + Frames(Rests(k, a), b)
    ensures Rests(k, a + b) == Rests(Rests(k, a), b)
    decreases a
  {
    hide FrameOf, Next;
    if a == [] {
      assert a + b == b;
    } else {
      FramesConcat(Next(k, a[0]), a[1..], b);
      assert (a + b)[1..] == a[1..] + b && (a + b)[0] == a[0];
    }
  }

  lemma {:induction false} NoBasisAfterClose(k: Basis, ts: seq<Task>)
    requires CloseTask in ts || k == BARE
    ensures Rests(k, ts) == BARE
    decreases ts
  {
    if ts != [] { NoBasisAfterClose(Next(k, ts[0]), ts[1..]); }
  }

  // ---------------------------------------------------------------- when a change of basis matters to the queue

  /** Messages ahead of a queued close. */
  function Ahead(ts: seq<Task>): seq<Msg> {
    if ts == [] || ts[0].CloseTask? then [] else [ts[0].msg] + Ahead(ts[1..])
  }

  /** No message ahead would be sealed under a transport. */
  predicate NoneSealable(ts: seq<Task>) { forall i | 0 <= i < |Ahead(ts)| :: IsHandshake(Ahead(ts)[i]) }

  /** No message ahead is framed without the transport. */
  predicate NonePlain(k: Basis, ts: seq<Task>) { forall i | 0 <= i < |Ahead(ts)| :: Seals(k, Ahead(ts)[i]) }

  lemma AheadTail(ts: seq<Task>, k: Basis)
    requires ts != [] && ts[0].EmitTask?
    ensures NoneSealable(ts) <==> IsHandshake(ts[0].msg) && NoneSealable(ts[1..])
    ensures NonePlain(k, ts) <==> Seals(k, ts[0].msg) && NonePlain(k, ts[1..])
    ensures NonePlain(Next(k, ts[0]), ts[1..]) <==> NonePlain(k, ts[1..])
  {
    var a := Ahead(ts);
    assert a[0] == ts[0].msg && forall i | 0 < i < |a| :: a[i] == Ahead(ts[1..])[i - 1];
    assert forall i | 0 <= i < |Ahead(ts[1..])| :: Ahead(ts[1..])[i] == a[i + 1];
  }

  /** A basis may change without effect on the queue. */
  predicate Spared(k: Basis, l: Basis, ts: seq<Task>) {
    (l.key == k.key || NonePlain(k, ts)) && (l.transport == k.transport || NoneSealable(ts))
  }

  /** Then the frames stay the same, and what the queue leaves behind is the new basis. */
  lemma {:induction false} SparedFrames(k: Basis, l: Basis, ts: seq<Task>)
    requires Spared(k, l, ts)
    ensures Frames(l, ts) == Frames(k, ts)
    ensures CloseTask !in ts ==>
              Rests(l, ts) == Basis(l.key, if l.transport == k.transport then Rests(k, ts).transport else l.transport)
    decreases ts
  {
    if ts != [] {
      assert ts == [ts[0]] + ts[1..];
      if ts[0].EmitTask? {
        AheadTail(ts, k);
        SparedFrames(Next(k, ts[0]), Next(l, ts[0]), ts[1..]);
      }
    }
  }

  /** A message ahead is sealed under one basis and framed otherwise under the other. */
  predicate Resealed(k: Basis, l: Basis) {
    (k.transport.Some? || l.transport.Some?)
    && (k.transport.Some? && l.transport.Some? ==>
          k.transport.value.transcript != l.transport.value.transcript
          || k.transport.value.sendNonce != l.transport.value.sendNonce)
  }

  lemma {:induction false} ResealedFrames(k: Basis, l: Basis, ts: seq<Task>)
    requires Resealed(k, l) && !NoneSealable(ts)
    ensures Frames(l, ts) != Frames(k, ts)
    decreases ts
  {
    assert ts != [] && ts[0].EmitTask?;
    AheadTail(ts, k);
    if IsHandshake(ts[0].msg) {
      ResealedFrames(Next(k, ts[0]), Next(l, ts[0]), ts[1..]);
      assert Frames(l, ts)[1..] == Frames(Next(l, ts[0]), ts[1..])
             && Frames(k, ts)[1..] == Frames(Next(k, ts[0]), ts[1..]);
    } else {
      assert Frames(l, ts)[0] == FrameOf(l, ts[0]) && Frames(k, ts)[0] == FrameOf(k, ts[0]);
    }
  }

  /** A message ahead is framed under one key or none and then under another. */
  lemma {:induction false} RekeyedFrames(k: Basis, l: Basis, ts: seq<Task>)
    requires l.key != k.key && (l.transport == k.transport || l.transport.None?) && !NonePlain(k, ts)
    ensures Frames(l, ts) != Frames(k, ts)
    decreases ts
  {
    assert ts != [] && ts[0].EmitTask?;
    AheadTail(ts, k);
    if Seals(k, ts[0].msg) && l.transport == k.transport {
      RekeyedFrames(Next(k, ts[0]), Next(l, ts[0]), ts[1..]);
      assert Frames(l, ts)[1..] == Frames(Next(l, ts[0]), ts[1..])
             && Frames(k, ts)[1..] == Frames(Next(k, ts[0]), ts[1..]);
    } else {
      assert Frames(l, ts)[0] == FrameOf(l, ts[0]) && Frames(k, ts)[0] == FrameOf(k, ts[0]);
    }
  }

  lemma {:induction false} NoneSealableRests(k: Basis, ts: seq<Task>)
    requires NoneSealable(ts) && CloseTask !in ts
    ensures Rests(k, ts) == k
    decreases ts
  {
    if ts != [] {
      AheadTail(ts, k);
      assert ts[0].EmitTask?;
      NoneSealableRests(Next(k, ts[0]), ts[1..]);
    }
  }

  lemma {:induction false} NoncesGrow(k: Basis, ts: seq<Task>)
    requires k.transport.Some? && CloseTask !in ts
    ensures Rests(k, ts).transport.Some? && Rests(k, ts).transport.value.sendNonce >= k.transport.value.sendNonce
    ensures !NoneSealable(ts) ==> Rests(k, ts).transport.value.sendNonce > k.transport.value.sendNonce
    decreases ts
  {
    if ts != [] {
      assert ts[0].EmitTask?;
      AheadTail(ts, k);
      NoncesGrow(Next(k, ts[0]), ts[1..]);
    }
  }

  // ---------------------------------------------------------------- an act on both kinds of client

  /** The frame of a message that is sent at once by a threading client. */
  function OnceFrame(k: Basis, m: Msg): Frame {
    if k.transport.Some? then Sealed(k.transport.value.transcript, k.transport.value.sendNonce, m) else Plain(k, m)
  }

  function OnceFirst(k: Basis, first: Option<Msg>): seq<Frame> {
    if first.Some? then [OnceFrame(k, first.value)] else []
  }

  /** The frames a threading client writes for an act. */
  function OnceFrames(k: Basis, a: Act): seq<Frame> {
    match a
    case Nothing => []
    case Opens => []
    case Says(m) => [OnceFrame(k, m)]
    case Unlocks(key) => [OnceFrame(k.(key := Some(key)), SessionHello)]
    case Aborts(first) => OnceFirst(k, first) + [CloseFrame]
    case Finishes(first, t) => OnceFirst(k, first) + [OnceFrame(k.(transport := Some(t)), SessionHello)]
  }

  /** What an act leaves for the next frame, where nothing is queued. */
  function Onward(k: Basis, m: Msg): Basis {
    if k.transport.None? then k
    else k.(transport := Some(k.transport.value.(sendNonce := k.transport.value.sendNonce + 1)))
  }

  function OnceRests(k: Basis, a: Act): Basis {
    match a
    case Nothing => k
    case Opens => k
    case Says(m) => Onward(k, m)
    case Unlocks(key) => Onward(k.(key := Some(key)), SessionHello)
    case Aborts(_) => k.(transport := None)
    case Finishes(_, t) => Onward(k.(transport := Some(t)), SessionHello)
  }

  /** What an act leaves for the queue of an asyncio client. */
  function QueueBasis(k: Basis, a: Act): Basis {
    match a
    case Unlocks(key) => k.(key := Some(key))
    case Aborts(_) => k.(transport := None)
    case Finishes(_, t) => k.(transport := Some(t))
    case _ => k
  }

  lemma OnceDone(b: Bus, a: Act)
    ensures var b' := DoAct(Sync, b, a);
            && b'.wire == b.wire + OnceFrames(BasisOf(b), a) && BasisOf(b') == OnceRests(BasisOf(b), a)
            && b'.tasks == b.tasks && b'.closing == (b.closing || a.Aborts?)
  {
    hide SendSync, OnceFrame, Onward;
    match a
    case Says(m) => SentOnce(b, m);
    case Unlocks(key) =>
      SentOnce(b.(cryptoKey := Some(key)), SessionHello);
    case Aborts(first) =>
      if first.Some? { SentOnce(b, first.value); }
      ClosedOnce(b, first);
    case Finishes(first, t) =>
      if first.Some? { SentOnce(b, first.value); }
      SentOnce(SayFirst(Sync, b, first).(transport := Some(t)), SessionHello);
      FinishedOnce(b, first, t);
    case _ =>
  }

  lemma SentOnce(b: Bus, m: Msg)
    ensures var b' := SendSync(b, m);
            && b'.wire == b.wire + [OnceFrame(BasisOf(b), m)] && BasisOf(b') == Onward(BasisOf(b), m)
            && b' == b.(wire := b'.wire, transport := b'.transport)
  {
  }

  lemma ClosedOnce(b: Bus, first: Option<Msg>)
    ensures var b' := DoAct(Sync, b, Aborts(first));
            && b'.wire == b.wire + (OnceFirst(BasisOf(b), first) + [CloseFrame])
            && BasisOf(b') == BasisOf(b).(transport := None)
  {
    hide SendSync, OnceFrame;
    if first.Some? {
      SentOnce(b, first.value);
      assert b.wire + [OnceFrame(BasisOf(b), first.value)] + [CloseFrame]
          == b.wire + ([OnceFrame(BasisOf(b), first.value)] + [CloseFrame]);
    } else {
      assert [] + [CloseFrame] == [CloseFrame];
    }
  }

  lemma FinishedOnce(b: Bus, first: Option<Msg>, t: BusClients.Session)
    ensures var k, b' := BasisOf(b), DoAct(Sync, b, Finishes(first, t));
            && b'.wire == b.wire + (OnceFirst(k, first) + [OnceFrame(k.(transport := Some(t)), SessionHello)])
            && BasisOf(b') == Onward(k.(transport := Some(t)), SessionHello)
  {
    hide SendSync, OnceFrame, Onward;
    var b1 := SayFirst(Sync, b, first).(transport := Some(t));
    if first.Some? { SentOnce(b, first.value); }
    SentOnce(b1, SessionHello);
    var hello := OnceFrame(BasisOf(b).(transport := Some(t)), SessionHello);
    assert BasisOf(b1) == BasisOf(b).(transport := Some(t));
    assert b1.wire == b.wire + OnceFirst(BasisOf(b), first) by { if first.None? { assert b.wire + [] == b.wire; } }
    AppendAssociates(b.wire, OnceFirst(BasisOf(b), first), [hello]);
  }

  lemma QueueDone(d: Bus, a: Act)
    ensures var d' := DoAct(Async, d, a);
            && d'.wire == d.wire && d'.tasks == d.tasks + Handed(a) && BasisOf(d') == QueueBasis(BasisOf(d), a)
            && d'.closing == d.closing
  {
  }

  predicate HandsHandshake(a: Act) {
    match a
    case Says(m) => IsHandshake(m)
    case Aborts(first) => first.Some? && IsHandshake(first.value)
    case Finishes(first, _) => first.Some? && IsHandshake(first.value)
    case _ => false
  }

  predicate HandsMessage(a: Act) { a.Says? || a.Unlocks? || a.Finishes? || (a.Aborts? && a.first.Some?) }

  /** What goes ahead of an outcome is a HANDSHAKE, and a transport is new. */
  predicate Proper(a: Act) {
    && (a.Aborts? || a.Finishes? ==> a.first.Some? ==> IsHandshake(a.first.value))
    && (a.Finishes? ==> a.transport.sendNonce == 0)
  }

  /** No message queued ahead of a close is framed differently after the act. */
  predicate Spares(k: Basis, ts: seq<Task>, a: Act) {
    match a
    case Unlocks(key) => k.key == Some(key) || NonePlain(k, ts)
    case Aborts(_) => k.transport.None? || NoneSealable(ts)
    case Finishes(_, _) => NoneSealable(ts)
    case _ => true
  }

  /**
   An act that both kinds of client frame alike: it changes nothing for what is queued, hands over no HANDSHAKE
   under a transport, and no message behind a queued close while there is a key or a transport.
   */
  predicate FramedAlike(k: Basis, l: Basis, ts: seq<Task>, a: Act) {
    && Spares(l, ts, a)
    && (k.transport.Some? ==> !HandsHandshake(a))
    && (CloseTask in ts && HandsMessage(a) ==> OnceRests(k, a) == BARE)
  }

  /** The threading client's basis k is the one the asyncio client's basis l will have come to after its queue. */
  predicate Awaited(k: Basis, l: Basis, ts: seq<Task>) {
    && k.key == l.key
    && (if CloseTask in ts then k.transport.None? && l.transport.None? else k == Rests(l, ts))
  }

  /** The new frames of both kinds, and what was queued, are the same. */
  predicate SameFramesAfter(k: Basis, l: Basis, ts: seq<Task>, a: Act) {
    && Frames(QueueBasis(l, a), ts) == Frames(l, ts)
    && Frames(Rests(QueueBasis(l, a), ts), Handed(a)) == OnceFrames(k, a)
  }

  lemma OneFrame(k: Basis, t: Task)
    ensures Frames(k, [t]) == [FrameOf(k, t)] && Rests(k, [t]) == Next(k, t)
  {
    assert [t][1..] == [];
  }

  lemma TwoFrames(k: Basis, t: Task, u: Task)
    ensures Frames(k, [t] + [u]) == [FrameOf(k, t)] + [FrameOf(Next(k, t), u)]
    ensures Rests(k, [t] + [u]) == Next(Next(k, t), u)
  {
    OneFrame(k, t);
    OneFrame(Next(k, t), u);
    FramesConcat(k, [t], [u]);
  }

  lemma HandedFrames(k: Basis, a: Act)
    ensures (a.Nothing? || a.Opens?) ==> Frames(k, Handed(a)) == [] && Rests(k, Handed(a)) == k
    ensures a.Says? ==>
              Frames(k, Handed(a)) == [FrameOf(k, EmitTask(a.msg))] && Rests(k, Handed(a)) == Next(k, EmitTask(a.msg))
    ensures a.Unlocks? ==>
              Frames(k, Handed(a)) == [FrameOf(k, EmitTask(SessionHello))]
              && Rests(k, Handed(a)) == Next(k, EmitTask(SessionHello))
  {
    if a.Says? { OneFrame(k, EmitTask(a.msg)); }
    if a.Unlocks? { OneFrame(k, EmitTask(SessionHello)); }
  }

  lemma SaysFramed(k: Basis, l: Basis, ts: seq<Task>, a: Act)
    requires Awaited(k, l, ts) && a.Says?
    ensures SameFramesAfter(k, l, ts, a) <==> FramedAlike(k, l, ts, a)
    ensures FramedAlike(k, l, ts, a) ==> Awaited(OnceRests(k, a), QueueBasis(l, a), ts + Handed(a))
  {
    HandedFrames(Rests(l, ts), a);
    FramesConcat(l, ts, Handed(a));
    if CloseTask in ts { NoBasisAfterClose(l, ts); }
  }

  lemma UnlocksFramed(k: Basis, l: Basis, ts: seq<Task>, a: Act)
    requires Awaited(k, l, ts) && a.Unlocks?
    ensures SameFramesAfter(k, l, ts, a) <==> FramedAlike(k, l, ts, a)
    ensures FramedAlike(k, l, ts, a) ==> Awaited(OnceRests(k, a), QueueBasis(l, a), ts + Handed(a))
  {
    var q := QueueBasis(l, a);
    HandedFrames(Rests(q, ts), a);
    FramesConcat(q, ts, Handed(a));
    if CloseTask in ts { NoBasisAfterClose(q, ts); }
    if Spares(l, ts, a) { SparedFrames(l, q, ts); } else { RekeyedFrames(l, q, ts); }
  }

  /** The reply that goes ahead, and then the outcome. */
  lemma FirstThen(k: Basis, first: Option<Msg>, t: Task)
    requires first.Some? ==> IsHandshake(first.value)
    ensures Frames(k, FirstTask(first) + [t])
         == (if first.Some? then [Plain(k, first.value)] else []) + [FrameOf(k, t)]
    ensures Rests(k, FirstTask(first) + [t]) == Next(k, t)
  {
    OneFrame(k, t);
    if first.Some? {
      TwoFrames(k, EmitTask(first.value), t);
    } else {
      assert [] + [t] == [t];
    }
  }

  lemma ReplyThenSame(p: seq<Frame>, q: seq<Frame>, f: Frame, g: Frame)
    requires |p| == |q|
    ensures p + [f] == q + [g] <==> p == q && f == g
  {
    if p + [f] == q + [g] {
      assert (p + [f])[..|p|] == p && (q + [g])[..|q|] == q;
      assert (p + [f])[|p|] == f && (q + [g])[|q|] == g;
    }
  }

  lemma AbortsFramed(k: Basis, l: Basis, ts: seq<Task>, a: Act)
    requires Awaited(k, l, ts) && a.Aborts? && Proper(a) && (k.transport.None? <==> l.transport.None?)
    ensures SameFramesAfter(k, l, ts, a) <==> FramedAlike(k, l, ts, a)
    ensures FramedAlike(k, l, ts, a) ==> Awaited(OnceRests(k, a), QueueBasis(l, a), ts + Handed(a))
  {
    hide Frames, Rests;
    var q := QueueBasis(l, a);
    FirstThen(Rests(q, ts), a.first, CloseTask);
    var reply := if a.first.Some? then [Plain(Rests(q, ts), a.first.value)] else [];
    ReplyThenSame(reply, OnceFirst(k, a.first), CloseFrame, CloseFrame);
    if CloseTask in ts { NoBasisAfterClose(q, ts); }
    if Spares(l, ts, a) { SparedFrames(l, q, ts); } else { ResealedFrames(l, q, ts); }
    assert CloseTask in ts + Handed(a) by { assert (ts + Handed(a))[|ts + Handed(a)| - 1] == CloseTask; }
  }

  lemma FinishesFramed(k: Basis, l: Basis, ts: seq<Task>, a: Act)
    requires Awaited(k, l, ts) && a.Finishes? && Proper(a)
    ensures SameFramesAfter(k, l, ts, a) <==> FramedAlike(k, l, ts, a)
    ensures FramedAlike(k, l, ts, a) ==> Awaited(OnceRests(k, a), QueueBasis(l, a), ts + Handed(a))
  {
    hide Frames, Rests;
    var q, hello := QueueBasis(l, a), EmitTask(SessionHello);
    FirstThen(Rests(q, ts), a.first, hello);
    var reply := if a.first.Some? then [Plain(Rests(q, ts), a.first.value)] else [];
    ReplyThenSame(reply, OnceFirst(k, a.first), FrameOf(Rests(q, ts), hello),
                  OnceFrame(k.(transport := Some(a.transport)), SessionHello));
    FramesConcat(q, ts, Handed(a));
    if CloseTask in ts {
      NoBasisAfterClose(q, ts);
    } else if NoneSealable(ts) {
      NoneSealableRests(q, ts);
      NoCloseAdded(ts, a);
    } else {
      NoncesGrow(q, ts);
    }
    if NoneSealable(ts) {
      NoneSealableSpares(l, q, ts);
    }
  }

  lemma NoCloseAdded(ts: seq<Task>, a: Act)
    requires CloseTask !in ts && a.Finishes?
    ensures CloseTask !in ts + Handed(a)
  {
  }

  lemma NoneSealableSpares(l: Basis, q: Basis, ts: seq<Task>)
    requires NoneSealable(ts) && q.key == l.key
    ensures Frames(q, ts) == Frames(l, ts)
  {
    SparedFrames(l, q, ts);
  }

  /** Each act: the frames of both kinds agree exactly when the act is one that both frame alike. */
  lemma ActFramed(k: Basis, l: Basis, ts: seq<Task>, a: Act)
    requires Awaited(k, l, ts) && Proper(a) && (k.transport.None? <==> l.transport.None?)
    ensures SameFramesAfter(k, l, ts, a) <==> FramedAlike(k, l, ts, a)
    ensures FramedAlike(k, l, ts, a) ==> Awaited(OnceRests(k, a), QueueBasis(l, a), ts + Handed(a))
  {
    match a
    case Says(_) => SaysFramed(k, l, ts, a);
    case Unlocks(_) => UnlocksFramed(k, l, ts, a);
    case Aborts(_) => AbortsFramed(k, l, ts, a);
    case Finishes(_, _) => FinishesFramed(k, l, ts, a);
    case _ =>
      HandedFrames(Rests(l, ts), a);
      assert ts + [] == ts;
  }

  /** A connection that ends leaves the queue alone when nothing in it would have been sealed or encrypted. */
  predicate SparesAtEnd(k: Basis, ts: seq<Task>) {
    (k.key.None? || NonePlain(k, ts)) && (k.transport.None? || NoneSealable(ts))
  }

  lemma EndFramed(l: Basis, ts: seq<Task>)
    ensures Frames(BARE, ts) == Frames(l, ts) <==> SparesAtEnd(l, ts)
    ensures SparesAtEnd(l, ts) ==> Awaited(BARE, BARE, ts)
  {
    NoBasisAfterClose(BARE, ts);
    if SparesAtEnd(l, ts) {
      SparedFrames(l, BARE, ts);
    } else if l.transport.Some? && !NoneSealable(ts) {
      ResealedFrames(l, BARE, ts);
    } else {
      RekeyedFrames(l, BARE, ts);
    }
  }
}
