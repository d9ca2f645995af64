/** Aggregation of CASCADE responses: one aggregator under its lock, and the handler that replaces it. */
module Cascade {
  import opened Wrappers
  import opened Json

  // ---------------------------------------------------------------- one aggregator

  /** The select callback: the message chosen from a batch, if any. */
  type Select = seq<Json> -> Option<Json>

  /** The fields the lock protects. */
  datatype Core = Core(expected: Option<nat>, responses: seq<Json>, timer: bool, resolved: bool)

  /** What one locked section did besides changing the fields. */
  datatype Outcome = Quiet | Selected(batch: seq<Json>, emitted: Option<Json>)

  function New(expected: Option<nat>): Core { Core(expected, [], false, false) }

  function Resolved(c: Core, select: Select): (Core, Outcome) {
    if c.resolved then (c, Quiet)
    else (Core(c.expected, [], false, true),
          if c.responses == [] then Quiet else Selected(c.responses, select(c.responses)))
  }

  /** A response is buffered; the first one starts the timer. */
  function Buffered(c: Core, m: Json): Core { c.(responses := c.responses + [m], timer := true) }

  function Added(c: Core, m: Json, select: Select): (Core, Outcome) {
    if c.resolved then (c, Quiet)
    else
      var c' := Buffered(c, m);
      if c.expected.Some? && |c'.responses| >= c.expected.value then Resolved(c', select) else (c', Quiet)
  }

  function Cancelled(c: Core): Core { Core(c.expected, [], false, true) }

  class CascadeAggregator {
    const expectedResponses: Option<nat>
    const select: Select
    var responses: seq<Json>
    var timer: bool
    var resolved: bool

    function State(): Core
      reads this
    {
      Core(expectedResponses, responses, timer, resolved)
    }

    constructor (expectedResponses: Option<nat>, select: Select)
      ensures State() == New(expectedResponses) && this.select == select
    {
      this.expectedResponses, this.select := expectedResponses, select;
      responses, timer, resolved := [], false, false;
    }

    method AddResponse(message: Json) returns (outcome: Outcome)
      modifies this
      ensures (State(), outcome) == Added(old(State()), message, select)
    {
      if resolved { return Quiet; }
      responses := responses + [message];
      if !timer { timer := true; }
      if expectedResponses.Some? && |responses| >= expectedResponses.value {
        outcome := DoResolve();
        return;
      }
      outcome := Quiet;
    }

    method DoResolve() returns (outcome: Outcome)
      modifies this
      ensures (State(), outcome) == Resolved(old(State()), select)
    {
      if resolved { return Quiet; }
      resolved := true;
      var batch := responses;
      responses := [];
      timer := false;
      outcome := if batch != [] then Selected(batch, select(batch)) else Quiet;
    }

    method CancelPending()
      modifies this
      ensures State() == Cancelled(old(State()))
    {
      timer := false;
      responses := [];
      resolved := true;
    }
  }

  /** What a CASCADE message carries: the end of a stream, a bus message that is an answer, or something else. */
  datatype Inner = StreamEnd | Answer | Foreign

  /**
   handle_cascade on the installed aggregator's fields. The end of a stream is no response, and None is the
   failed assertion that a bus message came; a missing or resolved aggregator is replaced before the response
   is added. knownNodes is the number of nodes of the mapper, None without one.
   */
  function Received(current: Option<Core>, message: Json, inner: Inner, knownNodes: Option<nat>, select: Select)
    : (Option<Core>, Option<Outcome>)
  {
    if inner.StreamEnd? then (current, Some(Quiet))
    else if inner.Foreign? then (current, None)
    else
      var open := if current.None? || current.value.resolved then New(knownNodes) else current.value;
      var (core, outcome) := Added(open, message, select);
      (Some(core), Some(outcome))
  }

  /** The part of the slave protocol that receives CASCADE responses. */
  class CascadeReceiver {
    const select: Select
    var aggregator: CascadeAggregator?

    function Current(): Option<Core>
      reads this, aggregator
    {
      if aggregator == null then None else Some(aggregator.State())
    }

    /** Every aggregator was made here and has the receiver's callback. */
    ghost predicate Valid()
      reads this, aggregator
    {
      aggregator != null ==> aggregator.select == select
    }

    constructor (select: Select)
      ensures Current() == None && Valid() && this.select == select
    {
      this.select := select;
      aggregator := null;
    }

    method HandleCascade(message: Json, inner: Inner, knownNodes: Option<nat>) returns (outcome: Option<Outcome>)
      requires Valid()
      modifies this, aggregator
      ensures Valid()
      ensures (Current(), outcome) == Received(old(Current()), message, inner, knownNodes, select)
      ensures aggregator == old(aggregator) || fresh(aggregator)
    {
      if inner.StreamEnd? { return Some(Quiet); }
      if inner.Foreign? { return None; }
      if aggregator == null || aggregator.resolved {
        aggregator := new CascadeAggregator(knownNodes, select);
      }
      var added := aggregator.AddResponse(message);
      outcome := Some(added);
    }
  }

  // ---------------------------------------------------------------- its history

  /** Calls as the lock orders them; a timer that has been cancelled too late fires all the same. */
  datatype Call = Add(m: Json) | Fire | Stop

  /** An aggregator with everything that ever happened to its responses; started is whether its timer ever was. */
  datatype Agg = Agg(core: Core, select: Select, started: bool, arrived: seq<Json>, batches: seq<seq<Json>>,
                     emitted: seq<Json>, cancelled: seq<Json>, late: seq<Json>)

  function Fresh(expected: Option<nat>, select: Select): Agg {
    Agg(New(expected), select, false, [], [], [], [], [])
  }

  function Record(a: Agg, core: Core, o: Outcome): Agg {
    match o
    case Quiet => a.(core := core)
    case Selected(batch, emitted) =>
      a.(core := core, batches := a.batches + [batch],
         emitted := if emitted.Some? then a.emitted + [emitted.value] else a.emitted)
  }

  function Step(a: Agg, c: Call): Agg {
    match c
    case Add(m) =>
      var (core, o) := Added(a.core, m, a.select);
      var a' := a.(arrived := a.arrived + [m], late := if a.core.resolved then a.late + [m] else a.late,
                   started := a.started || (!a.core.resolved && Buffered(a.core, m).timer));
      Record(a', core, o)
    case Fire =>
      var (core, o) := Resolved(a.core, a.select);
      Record(a, core, o)
    case Stop => a.(core := Cancelled(a.core), cancelled := a.cancelled + a.core.responses)
  }

  function After(a: Agg, calls: seq<Call>): Agg
    decreases calls
  {
    if calls == [] then a else After(Step(a, calls[0]), calls[1..])
  }

  /** The number of responses that resolves an aggregator early: an expectation of none acts as one. */
  function Threshold(expected: nat): nat { if expected == 0 then 1 else expected }

  /** The callback's choice from the selected batch, if there is a batch and a choice. */
  function Chosen(a: Agg): seq<Json> {
    if a.batches == [] then []
    else
      var choice := a.select(a.batches[0]);
      if choice.Some? then [choice.value] else []
  }

  /**
   Every response is buffered, or in the one selected batch, or cancelled, or came too late; arrival order
   is kept; what was emitted is what the callback chose from the batch; an unresolved aggregator is still short of
   its threshold, and its timer runs exactly when it has a response to wait with.
   */
  predicate Accounted(a: Agg) {
    && (a.core.timer <==> !a.core.resolved && a.core.responses != [])
    && (a.started <==> |a.arrived| > |a.late|)
    && (if a.core.resolved
        then a.core.responses == []
             && (a.batches == [] || (|a.batches| == 1 && a.batches[0] != [] && a.cancelled == []))
             && a.arrived == (if a.batches == [] then [] else a.batches[0]) + a.cancelled + a.late
        else a.arrived == a.core.responses && a.batches == [] && a.cancelled == [] && a.late == [])
    && a.emitted == Chosen(a)
    && (a.core.expected.Some? && !a.core.resolved ==> |a.core.responses| < Threshold(a.core.expected.value))
    && (a.core.expected.Some? && a.batches != [] ==> |a.batches[0]| <= Threshold(a.core.expected.value))
  }

  lemma AddAccounted(a: Agg, m: Json)
    requires Accounted(a)
    ensures Accounted(Step(a, Add(m)))
  {
    if a.core.resolved {
      var taken := (if a.batches == [] then [] else a.batches[0]) + a.cancelled;
      assert taken + a.late + [m] == taken + (a.late + [m]);
    }
  }

  lemma StopAccounted(a: Agg)
    requires Accounted(a)
    ensures Accounted(Step(a, Stop))
  {
  }

  lemma FireAccounted(a: Agg)
    requires Accounted(a)
    ensures Accounted(Step(a, Fire))
  {
    hide Threshold;
  }

  lemma StepAccounted(a: Agg, c: Call)
    requires Accounted(a)
    ensures Accounted(Step(a, c)) && Step(a, c).core.expected == a.core.expected && Step(a, c).select == a.select
    ensures a.core.resolved ==>
              Step(a, c).core.resolved && Step(a, c).batches == a.batches && Step(a, c).emitted == a.emitted
  {
    hide Accounted, Threshold, Chosen;
    match c
    case Add(m) => AddAccounted(a, m);
    case Fire => FireAccounted(a);
    case Stop => StopAccounted(a);
  }

  /**
   Under every interleaving of calls no response is lost or doubled, at most one message is emitted, and it is
   the callback's choice from exactly the responses that were buffered when the aggregator resolved.
   */
  lemma {:induction false} AggregatorSafety(a: Agg, calls: seq<Call>)
    requires Accounted(a)
    ensures var r := After(a, calls);
            && Accounted(r) && r.select == a.select && |r.emitted| <= 1
            && (r.emitted != [] ==> |r.batches| == 1 && r.select(r.batches[0]) == Some(r.emitted[0])
                                    && r.batches[0] <= r.arrived)
    ensures a.core.resolved ==> After(a, calls).core.resolved && After(a, calls).emitted == a.emitted
    decreases calls
  {
    if calls != [] {
      StepAccounted(a, calls[0]);
      AggregatorSafety(Step(a, calls[0]), calls[1..]);
    }
  }

  /** A timer fires only if it was started, be it cancelled since. */
  predicate CanCall(a: Agg, c: Call) { c.Fire? ==> a.started }

  predicate PossibleCalls(a: Agg, calls: seq<Call>)
    decreases calls
  {
    calls == [] || (CanCall(a, calls[0]) && PossibleCalls(Step(a, calls[0]), calls[1..]))
  }

  /**
   No response waits for ever: whatever has happened, the timer of an unresolved aggregator that holds responses is
   running, and when it fires exactly those responses are the batch. Without a response nothing can fire.
   */
  lemma TimerResolves(expected: Option<nat>, select: Select, calls: seq<Call>)
    requires PossibleCalls(Fresh(expected, select), calls)
    ensures var a := After(Fresh(expected, select), calls);
            && (!a.core.resolved && a.core.responses != [] ==>
                  && a.core.timer && CanCall(a, Fire)
                  && var r := Step(a, Fire);
                     r.core.resolved && !r.core.timer && r.batches == [a.core.responses]
                     && r.emitted == (if select(a.core.responses).Some? then [select(a.core.responses).value] else []))
            && (!a.core.resolved && a.core.responses == [] ==> a.arrived == [] && !CanCall(a, Fire))
  {
    AggregatorSafety(Fresh(expected, select), calls);
    var a := After(Fresh(expected, select), calls);
    if !a.core.resolved && a.core.responses != [] { StepAccounted(a, Fire); }
  }

  /** A callback that picks a member of every batch, as the default random choice does. */
  ghost predicate PicksMembers(select: Select) {
    forall batch | batch != [] :: select(batch).Some? && select(batch).value in batch
  }

  /** With such a callback a resolved aggregator emitted one of the batch, unless it had nothing to choose from. */
  lemma EmitsOneOfTheBatch(expected: Option<nat>, select: Select, calls: seq<Call>)
    requires PicksMembers(select)
    ensures var r := After(Fresh(expected, select), calls);
            if r.batches == [] then r.emitted == []
            else |r.batches| == 1 && |r.emitted| == 1 && r.emitted[0] in r.batches[0] && r.emitted[0] in r.arrived
  {
    AggregatorSafety(Fresh(expected, select), calls);
    var r := After(Fresh(expected, select), calls);
    if r.batches != [] { assert r.batches[0] != []; }
  }

  /** An aggregator resolved, if it is, by as many responses as it expected. */
  predicate CountedOut(a: Agg) {
    && (a.core.resolved <==> a.core.expected.Some? && |a.arrived| >= Threshold(a.core.expected.value))
    && (a.core.resolved ==> |a.batches| == 1 && |a.batches[0]| == Threshold(a.core.expected.value))
  }

  lemma AddCounts(a: Agg, m: Json)
    requires Accounted(a) && CountedOut(a)
    ensures CountedOut(Step(a, Add(m))) && |Step(a, Add(m)).arrived| == |a.arrived| + 1
  {
    hide Chosen;
  }

  /**
   Left to its responses an aggregator resolves at exactly its threshold, with the first that many as the
   batch; without an expectation it waits for the timer.
   */
  lemma {:induction false} ResolvesAtThreshold(expected: Option<nat>, select: Select, calls: seq<Call>)
    requires forall i | 0 <= i < |calls| :: calls[i].Add?
    ensures var a := After(Fresh(expected, select), calls);
            && (a.core.resolved <==> expected.Some? && |calls| >= Threshold(expected.value))
            && (a.core.resolved ==> |a.batches| == 1 && |a.batches[0]| == Threshold(expected.value))
            && |a.arrived| == |calls|
            && Accounted(a) && a.core.expected == expected
  {
    if calls != [] {
      var init, last := calls[..|calls| - 1], calls[|calls| - 1];
      ResolvesAtThreshold(expected, select, init);
      AfterSnoc(Fresh(expected, select), init, last);
      assert init + [last] == calls;
      var a := After(Fresh(expected, select), init);
      hide Accounted, Step, After;
      StepAccounted(a, last);
      AddCounts(a, last.m);
    }
  }

  lemma {:induction false} AfterSnoc(a: Agg, calls: seq<Call>, c: Call)
    ensures After(a, calls + [c]) == Step(After(a, calls), c)
    decreases calls
  {
    if calls == [] {
      assert ([c])[1..] == [];
    } else {
      AfterSnoc(Step(a, calls[0]), calls[1..], c);
      assert (calls + [c])[1..] == calls[1..] + [c];
    }
  }

  // ---------------------------------------------------------------- answer after answer

  /** A receiver that is sent answers, with the same number of known nodes throughout; all that it emits. */
  function ReceivedAll(current: Option<Core>, messages: seq<Json>, knownNodes: Option<nat>, select: Select)
    : (Option<Core>, seq<Outcome>)
  {
    if messages == [] then (current, [])
    else
      var n := |messages| - 1;
      var (before, outcomes) := ReceivedAll(current, messages[..n], knownNodes, select);
      var (after, outcome) := Received(before, messages[n], Answer, knownNodes, select);
      (after, if outcome.Some? then outcomes + [outcome.value] else outcomes)
  }

  /** A receiver that is sent messages of every kind. */
  function ReceivedAny(current: Option<Core>, messages: seq<(Json, Inner)>, knownNodes: Option<nat>, select: Select)
    : Option<Core>
  {
    if messages == [] then current
    else
      var (message, inner) := messages[|messages| - 1];
      var before := ReceivedAny(current, messages[..|messages| - 1], knownNodes, select);
      Received(before, message, inner, knownNodes, select).0
  }

  function AnswersIn(messages: seq<(Json, Inner)>): seq<Json> {
    if messages == [] then []
    else
      var (message, inner) := messages[|messages| - 1];
      AnswersIn(messages[..|messages| - 1]) + (if inner.Answer? then [message] else [])
  }

  /** Ends of streams and foreign messages might as well not have come, but that a foreign one raises. */
  lemma {:induction false} OnlyAnswersCount(current: Option<Core>, messages: seq<(Json, Inner)>,
                                            knownNodes: Option<nat>, select: Select, message: Json, inner: Inner)
    ensures ReceivedAny(current, messages, knownNodes, select)
         == ReceivedAll(current, AnswersIn(messages), knownNodes, select).0
    ensures var outcome := Received(ReceivedAny(current, messages, knownNodes, select), message, inner, knownNodes,
                                    select).1;
            && (inner.Foreign? <==> outcome.None?) && (inner.StreamEnd? ==> outcome == Some(Quiet))
  {
    if messages != [] {
      var init := messages[..|messages| - 1];
      var (m, kind) := messages[|messages| - 1];
      OnlyAnswersCount(current, init, knownNodes, select, message, inner);
      var answers := AnswersIn(init);
      assert AnswersIn(messages) == answers + (if kind.Answer? then [m] else []);
      assert answers + [] == answers && (answers + [m])[..|answers|] == answers;
    }
  }

  /** How many responses wait after the first n. */
  function Waiting(n: nat, expected: nat): nat { n % Threshold(expected) }

  lemma WaitingNext(n: nat, expected: nat)
    ensures Waiting(0, expected) == 0 && Waiting(n, expected) < Threshold(expected)
    ensures Waiting(n + 1, expected)
            == if Waiting(n, expected) + 1 == Threshold(expected) then 0 else Waiting(n, expected) + 1
  {
    var t := Threshold(expected);
    var q, r := n / t, n % t;
    assert n == q * t + r;
    if r + 1 == t {
      assert n + 1 == (q + 1) * t + 0;
      DivisionIs(n + 1, t, q + 1, 0);
    } else {
      assert n + 1 == q * t + (r + 1);
      DivisionIs(n + 1, t, q, r + 1);
    }
  }

  lemma DivisionIs(n: nat, t: nat, q: nat, r: nat)
    requires t > 0 && n == q * t + r && r < t
    ensures n % t == r
  {
    var d := n / t - q;
    Multiple(d, t);
    assert (n / t) * t == q * t + d * t;
    assert n % t == r - d * t;
  }

  lemma Multiple(d: int, t: nat)
    ensures d >= 1 ==> d * t >= t
    ensures d <= -1 ==> d * t + t <= 0
  {
    assert (d - 1) * t == d * t - t && (d + 1) * t == d * t + t;
  }

  predicate IsBatch(outcome: Outcome, batch: seq<Json>, select: Select) {
    outcome.Selected? && outcome.batch == batch && outcome.emitted == select(batch)
  }

  /** One more answer to a receiver that holds these, as its mapper knows e nodes. */
  lemma ReceivedNext(current: Option<Core>, held: seq<Json>, m: Json, e: nat, select: Select)
    requires |held| < Threshold(e)
    requires current.None? ==> held == []
    requires current.Some? ==> current.value == Core(Some(e), held, held != [], held == [])
    ensures var (after, outcome) := Received(current, m, Answer, Some(e), select);
            var batch := held + [m];
            if |batch| == Threshold(e)
            then after == Some(Core(Some(e), [], false, true)) && outcome.Some? && IsBatch(outcome.value, batch, select)
            else after == Some(Core(Some(e), batch, true, false)) && outcome == Some(Quiet)
  {
    assert current.Some? && held == [] ==> current.value.resolved;
    var open := if current.None? || current.value.resolved then New(Some(e)) else current.value;
    assert open.expected == Some(e) && open.responses == held && !open.resolved;
  }

  /**
   With a mapper that knows e nodes every max(1, e)-th answer resolves an aggregator, with the last so many answers as
   the batch, and the next one starts another; a mapper without nodes makes every answer resolve at once.
   */
  lemma {:induction false} ReceivesInBatches(messages: seq<Json>, e: nat, select: Select)
    ensures var (core, outcomes) := ReceivedAll(None, messages, Some(e), select);
            var n, k := |messages|, Waiting(|messages|, e);
            && |outcomes| == n && k <= n
            && (n == 0 ==> core == None)
            && (n > 0 ==> core == Some(Core(Some(e), messages[n - k..], k > 0, k == 0)))
            && (n > 0 && k > 0 ==> outcomes[n - 1] == Quiet)
            && (n > 0 && k == 0 ==> Threshold(e) <= n && IsBatch(outcomes[n - 1], messages[n - Threshold(e)..], select))
  {
    hide Received, Waiting, Threshold, IsBatch;
    var n := |messages|;
    WaitingNext(0, e);
    if n > 0 {
      var init, m := messages[..n - 1], messages[n - 1];
      ReceivesInBatches(init, e, select);
      var k := Waiting(n - 1, e);
      WaitingNext(n - 1, e);
      var current := ReceivedAll(None, init, Some(e), select).0;
      var held := init[n - 1 - k..];
      assert (k > 0 <==> held != []) && (k == 0 <==> held == []);
      assert held + [m] == messages[n - 1 - k..];
      ReceivedNext(current, held, m, e, select);
      assert Waiting(n, e) == 0 ==> messages[n..] == [];
    }
  }

  // ---------------------------------------------------------------- handle_cascade among threads

  /**
   Where a thread is in handle_cascade: about to replace the aggregator or not, about to look the installed one
   up, or about to add to the one it found, which may have been replaced by then.
   */
  datatype Place = Outside | Checked(replace: bool) | Installed | Adding(target: nat)

  /** Locks are named by the aggregator they belong to, aggregators by the order they were installed in. */
  datatype Thread = Thread(at: Place, held: set<nat>)

  datatype Proto = Proto(aggs: seq<Agg>, threads: map<nat, Thread>)

  datatype Move =
    | Check(t: nat)
    | Install(t: nat, expected: Option<nat>, select: Select)
    | LookUp(t: nat)
    | AddTo(t: nat, m: Json)
    | Expire(t: nat, k: nat)
    | StopOne(t: nat, k: nat)
    | Unlock(t: nat, k: nat)

  const IDLE := Thread(Outside, {})

  function At(p: Proto, t: nat): Thread {
    if t in p.threads then p.threads[t] else IDLE
  }

  /** The installed aggregator is always the newest. */
  predicate NeedsNew(p: Proto) { |p.aggs| == 0 || p.aggs[|p.aggs| - 1].core.resolved }

  predicate Free(p: Proto, k: nat) { forall t | t in p.threads :: k !in At(p, t).held }

  /** Whether a move can happen now; taking a lock waits until it is free. */
  predicate Enabled(p: Proto, m: Move) {
    match m
    case Check(t) => At(p, t).at.Outside?
    case Install(t, _, _) => At(p, t).at.Checked?
    case LookUp(t) => At(p, t).at.Installed? && |p.aggs| > 0
    case AddTo(t, _) => At(p, t).at.Adding? && At(p, t).at.target < |p.aggs| && Free(p, At(p, t).at.target)
    case Expire(t, k) => At(p, t) == IDLE && k < |p.aggs| && Free(p, k) && CanCall(p.aggs[k], Fire)
    case StopOne(t, k) => At(p, t) == IDLE && k < |p.aggs| && Free(p, k)
    case Unlock(t, k) => At(p, t).at.Outside? && k in At(p, t).held
  }

  /** The callbacks run with the lock held, so a thread that selected keeps it and is free to re-enter. */
  function Locked(p: Proto, t: nat, k: nat, c: Call): Proto
    requires k < |p.aggs|
  {
    var a := Step(p.aggs[k], c);
    var held := if |a.batches| > |p.aggs[k].batches| then At(p, t).held + {k} else At(p, t).held;
    Proto(p.aggs[k := a], p.threads[t := Thread(Outside, held)])
  }

  function Do(p: Proto, m: Move): Proto
    requires Enabled(p, m)
  {
    match m
    case Check(t) => p.(threads := p.threads[t := Thread(Checked(NeedsNew(p)), At(p, t).held)])
    case Install(t, expected, select) =>
      Proto(if At(p, t).at.replace then p.aggs + [Fresh(expected, select)] else p.aggs,
            p.threads[t := Thread(Installed, At(p, t).held)])
    case LookUp(t) => p.(threads := p.threads[t := Thread(Adding(|p.aggs| - 1), At(p, t).held)])
    case AddTo(t, m) => Locked(p, t, At(p, t).at.target, Add(m))
    case Expire(t, k) => Locked(p, t, k, Fire)
    case StopOne(t, k) => Locked(p, t, k, Stop)
    case Unlock(t, k) => p.(threads := p.threads[t := Thread(Outside, At(p, t).held - {k})])
  }

  predicate IsRun(p: Proto, moves: seq<Move>)
    decreases moves
  {
    |moves| == 0 || (Enabled(p, moves[0]) && IsRun(Do(p, moves[0]), moves[1..]))
  }

  function RunOf(p: Proto, moves: seq<Move>): Proto
    requires IsRun(p, moves)
    decreases moves
  {
    if |moves| == 0 then p else RunOf(Do(p, moves[0]), moves[1..])
  }

  // ---------------------------------------------------------------- locks

  /** Every lock in held is older than what a thread at this place will want. */
  predicate Older(p: Proto, k: nat, at: Place) {
    match at
    case Outside => true
    case Checked(replace) => replace || k < |p.aggs| - 1
    case Installed => k < |p.aggs| - 1
    case Adding(target) => k < target
  }

  /** What a thread at this place will look up or has found exists. */
  predicate Found(p: Proto, at: Place) {
    match at
    case Outside => true
    case Checked(replace) => replace || |p.aggs| > 0
    case Installed => |p.aggs| > 0
    case Adding(target) => target < |p.aggs|
  }

  /** A held lock belongs to a resolved aggregator and is older than the one its thread will want next. */
  ghost predicate LocksOrdered(p: Proto) {
    && AllAccounted(p)
    && (forall t, k | k in At(p, t).held :: HeldIsResolved(p, k))
    && (forall t, k | k in At(p, t).held :: Older(p, k, At(p, t).at))
    && (forall t :: Found(p, At(p, t).at))
  }

  predicate AllAccounted(p: Proto) { forall k | 0 <= k < |p.aggs| :: Accounted(p.aggs[k]) }

  predicate HeldIsResolved(p: Proto, k: nat) { k < |p.aggs| && p.aggs[k].core.resolved }

  /** The only thread a move changes is its own. */
  lemma OthersStay(p: Proto, m: Move, u: nat)
    requires Enabled(p, m) && u != m.t
    ensures At(Do(p, m), u) == At(p, u)
  {
  }

  lemma SelectingResolves(a: Agg, c: Call)
    ensures |Step(a, c).batches| > |a.batches| ==> Step(a, c).core.resolved
    ensures a.core.resolved ==> Step(a, c).core.resolved
  {
  }

  lemma LockedKeepsAccounts(p: Proto, t: nat, k: nat, c: Call)
    requires AllAccounted(p) && k < |p.aggs|
    ensures AllAccounted(Locked(p, t, k, c))
  {
    StepAccounted(p.aggs[k], c);
    hide Step, Accounted;
  }

  lemma LockedKeepsLocksOrdered(p: Proto, t: nat, k: nat, c: Call)
    requires LocksOrdered(p) && k < |p.aggs|
    ensures LocksOrdered(Locked(p, t, k, c))
  {
    var q := Locked(p, t, k, c);
    LockedKeepsAccounts(p, t, k, c);
    SelectingResolves(p.aggs[k], c);
    hide Step, AllAccounted;
    forall u ensures u == t || At(q, u) == At(p, u) {}
    forall u, j | j in At(q, u).held ensures HeldIsResolved(q, j) {
      assert j in At(p, u).held ==> HeldIsResolved(p, j);
    }
    forall u, j | j in At(q, u).held ensures Older(q, j, At(q, u).at) {
      assert u != t ==> Older(p, j, At(p, u).at);
    }
    forall u ensures Found(q, At(q, u).at) { assert Found(p, At(p, u).at); }
  }

  lemma UnlockedKeepsLocksOrdered(p: Proto, m: Move)
    requires LocksOrdered(p) && Enabled(p, m) && (m.Check? || m.Install? || m.LookUp? || m.Unlock?)
    ensures LocksOrdered(Do(p, m))
  {
    var q := Do(p, m);
    forall u | u != m.t ensures At(q, u) == At(p, u) { OthersStay(p, m, u); }
    assert At(q, m.t).held <= At(p, m.t).held;
    assert forall e, s :: Accounted(Fresh(e, s));
    hide Accounted;
    assert |p.aggs| <= |q.aggs| && forall k | 0 <= k < |p.aggs| :: q.aggs[k] == p.aggs[k];
    forall u, k | k in At(q, u).held ensures HeldIsResolved(q, k) {
      assert k in At(p, u).held && HeldIsResolved(p, k);
    }
    forall u, k | k in At(q, u).held ensures Older(q, k, At(q, u).at) {
      assert k in At(p, u).held && HeldIsResolved(p, k) && Older(p, k, At(p, u).at);
    }
    forall u ensures Found(q, At(q, u).at) { assert Found(p, At(p, u).at); }
  }

  lemma DoKeepsLocksOrdered(p: Proto, m: Move)
    requires LocksOrdered(p) && Enabled(p, m)
    ensures LocksOrdered(Do(p, m))
  {
    hide LocksOrdered, Locked;
    match m
    case AddTo(t, x) => LockedKeepsLocksOrdered(p, t, At(p, t).at.target, Add(x));
    case Expire(t, k) => LockedKeepsLocksOrdered(p, t, k, Fire);
    case StopOne(t, k) => LockedKeepsLocksOrdered(p, t, k, Stop);
    case _ => UnlockedKeepsLocksOrdered(p, m);
  }

  /** A thread about to take a lock holds locks of older aggregators only. */
  ghost predicate TakesNewer(p: Proto) {
    forall t, k | k in At(p, t).held && At(p, t).at.Adding? :: k < At(p, t).at.target
  }

  /**
   In every run, with any number of threads re-entering from callbacks, a thread that is about to take an
   aggregator's lock holds locks of older aggregators only, so never that one. Every aggregator accounts for
   its responses.
   */
  lemma {:induction false} LocksTakenInOrder(p: Proto, moves: seq<Move>)
    requires LocksOrdered(p) && IsRun(p, moves)
    ensures LocksOrdered(RunOf(p, moves)) && TakesNewer(RunOf(p, moves)) && AllAccounted(RunOf(p, moves))
    decreases moves
  {
    if |moves| == 0 {
      forall t, k | k in At(p, t).held && At(p, t).at.Adding? ensures k < At(p, t).at.target {
        assert Older(p, k, At(p, t).at);
      }
    } else {
      DoKeepsLocksOrdered(p, moves[0]);
      hide LocksOrdered, TakesNewer, AllAccounted, Enabled, Do;
      LocksTakenInOrder(Do(p, moves[0]), moves[1..]);
    }
  }

  /** A thread inside handle_cascade, or with a lock. */
  predicate Busy(p: Proto, t: nat) { At(p, t) != IDLE }

  ghost predicate CanMove(p: Proto, t: nat) { exists m :: Enabled(p, m) && m.t == t }

  /** A thread that waits for no lock can move. */
  lemma CanProceed(p: Proto, t: nat) returns (u: nat)
    requires LocksOrdered(p) && Busy(p, t) && !At(p, t).at.Adding?
    ensures u == t && CanMove(p, u)
  {
    u := t;
    assert Found(p, At(p, t).at);
    match At(p, t).at
    case Outside =>
      var k :| k in At(p, t).held;
      assert Enabled(p, Unlock(t, k)) && Unlock(t, k).t == t;
    case Checked(_) =>
      var m := Install(t, None, batch => None);
      assert Enabled(p, m) && m.t == t;
    case Installed =>
      assert Enabled(p, LookUp(t)) && LookUp(t).t == t;
  }

  /** Whoever waits for a lock waits, through others perhaps, for a thread that can move. */
  lemma {:induction false} WaitingEnds(p: Proto, t: nat) returns (u: nat)
    requires LocksOrdered(p) && Busy(p, t)
    ensures Busy(p, u) && CanMove(p, u)
    decreases if At(p, t).at.Adding? then |p.aggs| - At(p, t).at.target else |p.aggs| + 1
  {
    if !At(p, t).at.Adding? {
      u := CanProceed(p, t);
    } else {
      var target := At(p, t).at.target;
      assert Found(p, At(p, t).at);
      if Free(p, target) {
        u := t;
        assert Enabled(p, AddTo(t, Null)) && AddTo(t, Null).t == t;
      } else {
        var v :| v in p.threads && target in At(p, v).held;
        assert Older(p, target, At(p, v).at);
        if At(p, v).at.Adding? { u := WaitingEnds(p, v); } else { u := CanProceed(p, v); }
      }
    }
  }

  /** There is never a deadlock: in every run, as long as some thread is busy some busy thread can move. */
  lemma NeverStuck(p: Proto, moves: seq<Move>, t: nat)
    requires LocksOrdered(p) && IsRun(p, moves) && Busy(RunOf(p, moves), t)
    ensures exists u :: Busy(RunOf(p, moves), u) && CanMove(RunOf(p, moves), u)
  {
    hide LocksOrdered, CanMove;
    LocksTakenInOrder(p, moves);
    var u := WaitingEnds(RunOf(p, moves), t);
  }

  /**
   In every run an unresolved aggregator that holds responses has its timer running and its lock free, so the timer of
   any idle thread can fire and then takes exactly those responses.
   */
  lemma TimerIsNeverBlocked(p: Proto, moves: seq<Move>, t: nat, k: nat)
    requires LocksOrdered(p) && IsRun(p, moves)
    requires var q := RunOf(p, moves);
             && k < |q.aggs| && !q.aggs[k].core.resolved && q.aggs[k].core.responses != [] && At(q, t) == IDLE
    ensures var q := RunOf(p, moves);
            && q.aggs[k].core.timer && Enabled(q, Expire(t, k))
            && Do(q, Expire(t, k)).aggs[k].batches == [q.aggs[k].core.responses]
  {
    LocksTakenInOrder(p, moves);
    var q := RunOf(p, moves);
    hide RunOf, IsRun;
    assert Accounted(q.aggs[k]);
    forall u | u in q.threads ensures k !in At(q, u).held {
      assert k in At(q, u).held ==> HeldIsResolved(q, k);
    }
  }

  // ---------------------------------------------------------------- how many aggregators are open

  predicate AtMostOneOpen(p: Proto) {
    forall j, k | 0 <= j < k < |p.aggs| :: p.aggs[j].core.resolved || p.aggs[k].core.resolved
  }

  /** Holds now and after every move of the run. */
  ghost predicate AlwaysOneOpen(p: Proto, moves: seq<Move>)
    requires IsRun(p, moves)
    decreases moves
  {
    AtMostOneOpen(p) && (|moves| == 0 || AlwaysOneOpen(Do(p, moves[0]), moves[1..]))
  }

  /** A thread that decided to replace the aggregator does so while that is still called for. */
  predicate TimelyMove(p: Proto, m: Move) { m.Install? && At(p, m.t).at == Checked(true) ==> NeedsNew(p) }

  predicate Timely(p: Proto, moves: seq<Move>)
    requires IsRun(p, moves)
    decreases moves
  {
    |moves| == 0 || (TimelyMove(p, moves[0]) && Timely(Do(p, moves[0]), moves[1..]))
  }

  predicate OnlyNewestOpen(p: Proto) { forall k | 0 <= k < |p.aggs| - 1 :: p.aggs[k].core.resolved }

  lemma LockedKeepsNewest(p: Proto, t: nat, k: nat, c: Call)
    requires k < |p.aggs| && OnlyNewestOpen(p)
    ensures OnlyNewestOpen(Locked(p, t, k, c))
  {
    SelectingResolves(p.aggs[k], c);
    hide Step;
  }

  lemma TimelyStep(p: Proto, m: Move)
    requires OnlyNewestOpen(p) && Enabled(p, m)
    ensures if TimelyMove(p, m) then OnlyNewestOpen(Do(p, m)) else !AtMostOneOpen(Do(p, m))
  {
    hide Locked;
    match m
    case AddTo(t, x) => LockedKeepsNewest(p, t, At(p, t).at.target, Add(x));
    case Expire(t, k) => LockedKeepsNewest(p, t, k, Fire);
    case StopOne(t, k) => LockedKeepsNewest(p, t, k, Stop);
    case Install(t, expected, select) =>
      if !TimelyMove(p, m) {
        var q := Do(p, m);
        assert !q.aggs[|p.aggs| - 1].core.resolved && !q.aggs[|p.aggs|].core.resolved;
      }
    case _ =>
  }

  /**
   At most one aggregator is unresolved throughout a run exactly when every thread that checked and decided to
   replace the aggregator still finds none, or a resolved one, when it installs its own.
   */
  lemma {:induction false} OneOpenWhenTimely(p: Proto, moves: seq<Move>)
    requires OnlyNewestOpen(p) && IsRun(p, moves)
    ensures AlwaysOneOpen(p, moves) <==> Timely(p, moves)
    decreases moves
  {
    if |moves| > 0 {
      TimelyStep(p, moves[0]);
      hide Enabled, Do, TimelyMove, OnlyNewestOpen;
      assert AtMostOneOpen(p) by { NewestIsOne(p); }
      if TimelyMove(p, moves[0]) { OneOpenWhenTimely(Do(p, moves[0]), moves[1..]); }
    } else {
      NewestIsOne(p);
    }
  }

  lemma NewestIsOne(p: Proto)
    requires OnlyNewestOpen(p)
    ensures AtMostOneOpen(p)
  {
  }

  /** No thread checks while another is between its check and the installation it decided on. */
  ghost predicate Exclusive(p: Proto, moves: seq<Move>)
    requires IsRun(p, moves)
    decreases moves
  {
    |moves| == 0 || (MayCheck(p, moves[0]) && Exclusive(Do(p, moves[0]), moves[1..]))
  }

  ghost predicate MayCheck(p: Proto, m: Move) {
    m.Check? ==> forall t :: !At(p, t).at.Checked?
  }

  /** A thread about to replace the aggregator is right to, and only one is between check and install. */
  ghost predicate OneChecker(p: Proto) {
    && (forall t | At(p, t).at == Checked(true) :: NeedsNew(p))
    && (forall t, u | At(p, t).at.Checked? && At(p, u).at.Checked? :: t == u)
  }

  lemma LockedKeepsOneChecker(p: Proto, t: nat, k: nat, c: Call)
    requires k < |p.aggs| && OneChecker(p)
    ensures OneChecker(Locked(p, t, k, c))
  {
    SelectingResolves(p.aggs[k], c);
    hide Step;
    var q := Locked(p, t, k, c);
    forall u | u != t ensures At(q, u) == At(p, u) {}
    assert At(q, t).at.Outside?;
  }

  lemma DoKeepsOneChecker(p: Proto, m: Move)
    requires OneChecker(p) && Enabled(p, m) && MayCheck(p, m)
    ensures OneChecker(Do(p, m)) && TimelyMove(p, m)
  {
    hide Locked;
    match m
    case AddTo(t, x) => LockedKeepsOneChecker(p, t, At(p, t).at.target, Add(x));
    case Expire(t, k) => LockedKeepsOneChecker(p, t, k, Fire);
    case StopOne(t, k) => LockedKeepsOneChecker(p, t, k, Stop);
    case _ => forall u | u != m.t ensures At(Do(p, m), u) == At(p, u) { OthersStay(p, m, u); }
  }

  /** Checks that do not overlap are enough. */
  lemma {:induction false} OneOpenWhenExclusive(p: Proto, moves: seq<Move>)
    requires OnlyNewestOpen(p) && OneChecker(p) && IsRun(p, moves) && Exclusive(p, moves)
    ensures Timely(p, moves) && AlwaysOneOpen(p, moves)
    decreases moves
  {
    OneOpenWhenTimely(p, moves);
    if |moves| > 0 {
      DoKeepsOneChecker(p, moves[0]);
      TimelyStep(p, moves[0]);
      hide Enabled, Do, TimelyMove, OnlyNewestOpen, OneChecker, MayCheck, AtMostOneOpen;
      OneOpenWhenExclusive(Do(p, moves[0]), moves[1..]);
    }
  }

  lemma {:induction false} RunOfCons(p: Proto, m: Move, rest: seq<Move>)
    requires Enabled(p, m) && IsRun(Do(p, m), rest)
    ensures IsRun(p, [m] + rest) && RunOf(p, [m] + rest) == RunOf(Do(p, m), rest)
  {
    assert ([m] + rest)[1..] == rest;
  }

  /** Two threads that both check first install two aggregators, and both stay open. */
  lemma TwoCheckersTwoOpen(select: Select)
    ensures var moves := [Check(0)] + ([Check(1)] + ([Install(0, None, select)] + ([Install(1, None, select)] + [])));
            && IsRun(Proto([], map[]), moves)
            && var q := RunOf(Proto([], map[]), moves);
               |q.aggs| == 2 && !q.aggs[0].core.resolved && !q.aggs[1].core.resolved
  {
    var p0 := Proto([], map[]);
    var p1 := Do(p0, Check(0));
    var p2 := Do(p1, Check(1));
    var p3 := Do(p2, Install(0, None, select));
    var p4 := Do(p3, Install(1, None, select));
    assert p4.aggs == [Fresh(None, select), Fresh(None, select)];
    hide *;
    assert Enabled(p3, Install(1, None, select)) && Enabled(p2, Install(0, None, select)) && Enabled(p1, Check(1))
           && Enabled(p0, Check(0));
    RunOfCons(p3, Install(1, None, select), []);
    RunOfCons(p2, Install(0, None, select), [Install(1, None, select)] + []);
    RunOfCons(p1, Check(1), [Install(0, None, select)] + ([Install(1, None, select)] + []));
    RunOfCons(p0, Check(0), [Check(1)] + ([Install(0, None, select)] + ([Install(1, None, select)] + [])));
  }
}
