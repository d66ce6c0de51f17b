/** Every run of the link, with a log of what crossed its faces.

    The link keeps flags and counters only.  The log beside it records each captured beat, each
    answer the caller gave and each answer an edge consumed, so that the flags and the counters
    can be compared with what happened. */
module LinkHistory {
  import opened Wrappers
  import opened LinkModel

  datatype Call =
    | Begin(pins: Pins, service: Option<Reply>)
    | Answer(reply: Reply)
    | End
    | Reset(level: bool)
    | ForgetCalls

  /** A consumed answer, as the response face showed it. */
  datatype Sent = Sent(write: bool, reply: Reply)

  datatype Log = Log(
    kept: seq<Beat>,        // captured and not dropped by a reset
    given: seq<Reply>,      // answers taken for those beats
    consumed: seq<Sent>,    // answers an edge consumed
    since: nat,             // |consumed| at the last forget
    carried: nat,           // beats outstanding at the last forget
    dropped: nat)           // beats a reset dropped since then

  const Nothing := Log([], [], [], 0, 0, 0)

  datatype World = World(link: Link, inTick: bool, log: Log)

  const Start := World(Fresh, false, Nothing)

  /** beat_outstanding(). */
  predicate Outstanding(l: Link) { l.handshaked || l.waiting || l.pending }

  function Held(b: bool): nat { if b then 1 else 0 }

  /** Begin and end alternate; reset and forget come between ticks; an answer may come at any time. */
  predicate Legal(w: World, c: Call) {
    match c
    case Begin(_, _) => !w.inTick
    case Answer(_) => true
    case End => w.inTick
    case Reset(_) => !w.inTick
    case ForgetCalls => !w.inTick
  }

  function ButLast<T>(s: seq<T>): seq<T> { if s == [] then [] else s[..|s| - 1] }

  function LogBegin(log: Log, before: Link, pins: Pins, service: Option<Reply>): Log {
    if !(pins.reqValid && ReqReady(before)) then log
    else log.(kept := log.kept + [pins.beat],
              given := log.given + if service.Some? then [service.value] else [])
  }

  function LogReset(log: Log, before: Link): Log {
    log.(kept := if Outstanding(before) then ButLast(log.kept) else log.kept,
         given := if before.answered || before.pending then ButLast(log.given) else log.given,
         dropped := log.dropped + Held(Outstanding(before)))
  }

  function LogEnd(log: Log, before: Link): Log {
    if before.handshaked || !before.seen.beatResponse then log
    else log.(consumed := log.consumed + [Sent(before.pendingWrite, before.driven)])
  }

  function Do(w: World, c: Call): World {
    match c
    case Begin(pins, service) =>
      World(BeginTick(w.link, pins, service), true, LogBegin(w.log, w.link, pins, service))
    case Answer(reply) =>
      World(Answered(w.link, reply), w.inTick,
            if w.link.waiting then w.log.(given := w.log.given + [reply]) else w.log)
    case End =>
      World(EndTick(w.link), false, LogEnd(w.log, w.link))
    case Reset(level) =>
      World(SetReset(w.link, level), w.inTick, if level then LogReset(w.log, w.link) else w.log)
    case ForgetCalls =>
      World(Forget(w.link), w.inTick,
            w.log.(since := |w.log.consumed|, carried := Held(Outstanding(w.link)), dropped := 0))
  }

  function After(calls: seq<Call>): World {
    if calls == [] then Start else Do(After(calls[..|calls| - 1]), calls[|calls| - 1])
  }

  predicate IsRun(calls: seq<Call>) {
    calls != [] ==> IsRun(calls[..|calls| - 1]) && Legal(After(calls[..|calls| - 1]), calls[|calls| - 1])
  }

  // ---------------------------------------------------------------- what every run keeps

  /** Which flags can hold together. */
  predicate FlagsOk(w: World) {
    var l := w.link;
    && !(l.waiting && l.answered) && !(l.waiting && l.pending) && !(l.answered && l.pending)
    && (l.answered ==> l.handshaked)
    && (l.handshaked ==> w.inTick && (l.waiting || l.answered))
    && (w.inTick && l.seen.beatResponse ==> l.pending)
    && (w.inTick && l.seen.beatRequest <==> w.inTick && l.handshaked)
  }

  /** The beats without a consumed answer: at most one, and the flags say how far it is. */
  predicate LogFits(w: World) {
    var l, g := w.link, w.log;
    && |g.kept| == |g.consumed| + Held(Outstanding(l))
    && |g.given| == |g.consumed| + Held(l.answered || l.pending)
    && (Outstanding(l) ==> l.request == g.kept[|g.kept| - 1])
    && (l.answered ==> l.answer == g.given[|g.given| - 1])
    && (l.pending ==> l.driven == g.given[|g.given| - 1] && l.pendingWrite == l.request.write)
  }

  /** The k-th consumed answer is the k-th answer given, and it carries the direction of the k-th
      beat that was not dropped. */
  predicate InOrder(g: Log) {
    && |g.consumed| <= |g.kept| && |g.consumed| <= |g.given|
    && forall k :: 0 <= k < |g.consumed| ==> g.consumed[k] == Sent(g.kept[k].write, g.given[k])
  }

  function Errors(s: seq<Sent>): nat {
    if s == [] then 0 else Errors(s[..|s| - 1]) + Held(s[|s| - 1].reply.error)
  }

  predicate CountersFit(w: World) {
    var t, g := w.link.traffic, w.log;
    && g.since <= |g.consumed|
    && t.responses == |g.consumed| - g.since
    && t.errors == Errors(g.consumed[g.since..])
    && t.requests + g.carried == t.responses + Held(Outstanding(w.link)) + g.dropped
    && t.requests == t.readBeats + t.writeBeats
    && t.writeBeats == t.fullStrobe + t.partialStrobe
  }

  predicate Good(w: World) { FlagsOk(w) && LogFits(w) && InOrder(w.log) && CountersFit(w) }

  /** Every beat is counted once, by direction and by strobe. */
  lemma CountsOneMore(t: Traffic, beat: Beat)
    ensures var u := Counted(t, beat);
            && u.requests == t.requests + 1 && u.responses == t.responses && u.errors == t.errors
            && u.readBeats + u.writeBeats == t.readBeats + t.writeBeats + 1
            && u.fullStrobe + u.partialStrobe - u.writeBeats == t.fullStrobe + t.partialStrobe - t.writeBeats
  {
  }

  lemma BeginCounts(w: World, pins: Pins, service: Option<Reply>)
    requires FlagsOk(w) && CountersFit(w) && !w.inTick
    ensures CountersFit(Do(w, Begin(pins, service)))
  {
    CountsOneMore(w.link.traffic, pins.beat);
  }

  lemma BeginFits(w: World, pins: Pins, service: Option<Reply>)
    requires FlagsOk(w) && LogFits(w) && InOrder(w.log) && !w.inTick
    ensures var next := Do(w, Begin(pins, service)); FlagsOk(next) && LogFits(next) && InOrder(next.log)
  {
  }

  lemma BeginKeeps(w: World, pins: Pins, service: Option<Reply>)
    requires Good(w) && !w.inTick
    ensures Good(Do(w, Begin(pins, service)))
  {
    BeginFits(w, pins, service);
    BeginCounts(w, pins, service);
  }

  lemma AnswerKeeps(w: World, reply: Reply)
    requires Good(w)
    ensures Good(Do(w, Answer(reply)))
  {
  }

  lemma ConsumeCounts(g: Log, sent: Sent)
    requires g.since <= |g.consumed|
    ensures Errors((g.consumed + [sent])[g.since..]) == Errors(g.consumed[g.since..]) + Held(sent.reply.error)
  {
    var s := (g.consumed + [sent])[g.since..];
    assert s[..|s| - 1] == g.consumed[g.since..];
  }

  lemma EndFits(w: World)
    requires FlagsOk(w) && LogFits(w) && InOrder(w.log) && w.inTick
    ensures FlagsOk(Do(w, End)) && LogFits(Do(w, End)) && InOrder(Do(w, End).log)
  {
  }

  lemma EndCounts(w: World)
    requires FlagsOk(w) && CountersFit(w) && w.inTick
    ensures CountersFit(Do(w, End))
  {
    ConsumeCounts(w.log, Sent(w.link.pendingWrite, w.link.driven));
  }

  lemma EndKeeps(w: World)
    requires Good(w) && w.inTick
    ensures Good(Do(w, End))
  {
    EndFits(w);
    EndCounts(w);
  }

  lemma ResetKeeps(w: World, level: bool)
    requires Good(w) && !w.inTick
    ensures Good(Do(w, Reset(level)))
  {
  }

  lemma StepKeeps(w: World, c: Call)
    requires Good(w) && Legal(w, c)
    ensures Good(Do(w, c))
  {
    match c
    case Begin(pins, service) => BeginKeeps(w, pins, service);
    case Answer(reply) => AnswerKeeps(w, reply);
    case End => EndKeeps(w);
    case Reset(level) => ResetKeeps(w, level);
    case ForgetCalls => assert w.log.consumed[|w.log.consumed|..] == [];
  }

  /** Safety of the link over every legal run. */
  lemma {:induction false} EveryRunIsGood(calls: seq<Call>)
    requires IsRun(calls)
    ensures Good(After(calls))
  {
    if calls != [] {
      EveryRunIsGood(calls[..|calls| - 1]);
      StepKeeps(After(calls[..|calls| - 1]), calls[|calls| - 1]);
    }
  }

  /** The traffic counters account for every request answered, outstanding or dropped. */
  predicate Balanced(w: World) {
    w.link.traffic.requests == w.link.traffic.responses + Held(Outstanding(w.link)) + w.log.dropped
  }

  lemma CarriedUnbalances(w: World)
    requires CountersFit(w)
    ensures Balanced(w) <==> w.log.carried == 0
  {
  }

  /** The counters balance exactly when the last forget found no beat outstanding. */
  lemma {:induction false} TrafficBalancesIff(calls: seq<Call>)
    requires IsRun(calls)
    ensures Balanced(After(calls)) <==> After(calls).log.carried == 0
  {
    EveryRunIsGood(calls);
    CarriedUnbalances(After(calls));
  }
}
