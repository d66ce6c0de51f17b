/** What agreement buys, and the three ways to lose it for good. */
module LinkProgress {
  import opened Wrappers
  import opened LinkModel
  import opened LinkHistory
  import opened Adapter
  import opened LinkSystem
  import opened LinkAgreement

  // ---------------------------------------------------------------- faithful carriage

  /** Over every allowed run: the beats the adapter handed over are the ones the link captured, the
      answers it latched are the ones the link counts as consumed, and the CPU gets each of them
      back once, in order and with the right data and response code. */
  lemma {:induction false} NothingLostOrInvented(cpu: Cpu, moves: seq<Move>)
    requires AllAllowed(cpu, moves)
    ensures var s := Reach(cpu, moves);
            && (!s.inTick ==> s.ledger.captured == s.ledger.accepted)
            && s.ledger.consumed == s.ledger.latched
            && |s.ledger.returned| <= |s.ledger.consumed|
            && (!s.reset ==> |s.ledger.consumed| == |s.ledger.returned| + Held(Owes(s.adapter)))
            && forall k :: 0 <= k < |s.ledger.returned| ==> s.ledger.returned[k] == ReturnFor(s.ledger.consumed[k])
  {
    EveryRunIsSynced(cpu, moves);
  }

  /** At an accepting edge req_ready is high and rsp_valid low, whatever was driven again before it,
      and that edge moves the adapter to its response state. */
  lemma {:induction false} AcceptingEdge(cpu: Cpu, moves: seq<Move>)
    requires AllAllowed(cpu, moves) && Reach(cpu, moves).inTick && Reach(cpu, moves).link.handshaked
    ensures var s := Reach(cpu, moves);
            s.face.reqReady && !s.face.rspValid && InResponse(RisingEdge(s).adapter)
  {
    EveryRunIsSynced(cpu, moves);
    var s := Reach(cpu, moves);
    OnFaceEdge(s.adapter, s.cpu, s.face);
  }

  // ---------------------------------------------------------------- progress

  function Tick(s: System, cpu: Cpu, service: Option<Reply>): System { RisingEdge(LowPhase(s, cpu, service)) }

  /** The adapter carries this answer to the CPU. */
  predicate Carries(a: Regs, write: bool, reply: Reply) {
    if write then a.state.WriteAxiResponse? && a.write.resp == RespOf(reply)
    else a.state.ReadAxiResponse? && a.read.data == reply.rdata && a.read.resp == RespOf(reply)
  }

  /** A beat answered in its capture tick is committed by that tick's edge. */
  lemma AnsweredInTick(s: System, cpu: Cpu, reply: Reply)
    requires Synced(s) && !s.inTick && !s.reset && InRequest(s.adapter)
    ensures var t := Tick(s, cpu, Some(reply));
            && Synced(t) && !t.inTick && !t.reset
            && t.link.pending && t.link.driven == reply && t.link.pendingWrite == s.adapter.state.WriteRequest?
            && t.link.traffic.responses == s.link.traffic.responses
  {
  }

  /** A driven answer is consumed by the next tick's edge, whatever the CPU does. */
  lemma PendingIsConsumed(s: System, cpu: Cpu, service: Option<Reply>)
    requires Synced(s) && !s.inTick && !s.reset && s.link.pending
    ensures var t := Tick(s, cpu, service);
            && Synced(t) && !t.inTick && !t.reset
            && Carries(t.adapter, s.link.pendingWrite, s.link.driven)
            && !Outstanding(t.link) && t.link.responsePhase
            && t.link.traffic.responses == s.link.traffic.responses + 1
  {
    LowAgrees(s, cpu, service);
    var m := LowPhase(s, cpu, service);
    RiseSynced(m);
    assert m.link.seen.beatResponse && !m.link.handshaked;
    OnFaceEdge(m.adapter, cpu, m.face);
  }

  /** Every state of every run with an answering caller makes progress: a requested beat reaches the
      CPU's side in two ticks, a captured one in the tick after its answer. */
  lemma {:induction false} NoDeadlock(cpu: Cpu, moves: seq<Move>, reply: Reply, c1: Cpu, c2: Cpu, later: Option<Reply>)
    requires AllAllowed(cpu, moves) && !Reach(cpu, moves).inTick && !Reach(cpu, moves).reset
    ensures var s := Reach(cpu, moves);
            InRequest(s.adapter) ==>
              Carries(Tick(Tick(s, c1, Some(reply)), c2, later).adapter, s.adapter.state.WriteRequest?, reply)
    ensures var s := Reach(cpu, moves);
            InResponse(s.adapter) && s.link.waiting ==>
              Carries(Tick(Go(s, GiveAnswer(reply)), c1, later).adapter, s.adapter.state.WriteResponse?, reply)
    ensures var s := Reach(cpu, moves);
            InResponse(s.adapter) && !s.link.waiting ==>
              Carries(Tick(s, c1, later).adapter, s.adapter.state.WriteResponse?, s.link.driven)
  {
    EveryRunIsSynced(cpu, moves);
    var s := Reach(cpu, moves);
    if InRequest(s.adapter) {
      AnsweredInTick(s, c1, reply);
      PendingIsConsumed(Tick(s, c1, Some(reply)), c2, later);
    } else if InResponse(s.adapter) {
      AnswerAgrees(s, reply);
      PendingIsConsumed(Go(s, GiveAnswer(reply)), c1, later);
    }
  }

  // ---------------------------------------------------------------- getting stuck

  /** The link waits for an edge to consume an answer, and the adapter is not waiting for one. */
  predicate Stuck(s: System) {
    && (s.link.waiting || s.link.pending) && !s.link.handshaked && !s.link.answered
    && !InResponse(s.adapter)
    && (s.inTick ==> !s.face.reqReady && !s.link.seen.beatResponse)
  }

  /** Any order of moves in which reset is never raised and begin and end alternate. */
  predicate NoReset(s: System, moves: seq<Move>)
    decreases |moves|
  {
    moves != [] ==>
      && moves[0] != Level(true) && (moves[0].Low? ==> !s.inTick) && (moves[0].Rise? ==> s.inTick)
      && NoReset(Go(s, moves[0]), moves[1..])
  }

  function Then(s: System, moves: seq<Move>): System
    decreases |moves|
  {
    if moves == [] then s else Then(Go(s, moves[0]), moves[1..])
  }

  lemma StuckStays(s: System, m: Move)
    requires Stuck(s) && m != Level(true) && (m.Low? ==> !s.inTick) && (m.Rise? ==> s.inTick)
    ensures Stuck(Go(s, m))
    ensures !m.Clear? ==> Go(s, m).link.traffic == s.link.traffic
    ensures Go(s, m).ledger.consumed == s.ledger.consumed && Go(s, m).ledger.captured == s.ledger.captured
  {
  }

  /** A stuck pair stays stuck: no beat is captured and no answer consumed until reset is raised. */
  lemma {:induction false} StuckForever(s: System, moves: seq<Move>)
    requires Stuck(s) && NoReset(s, moves)
    ensures Stuck(Then(s, moves))
    ensures Then(s, moves).ledger.consumed == s.ledger.consumed && Then(s, moves).ledger.captured == s.ledger.captured
    decreases |moves|
  {
    if moves != [] {
      StuckStays(s, moves[0]);
      StuckForever(Go(s, moves[0]), moves[1..]);
    }
  }

  /** Taking req_ready back in the low phase of the capture deadlocks, answered or not. */
  lemma DroppingReadyDeadlocks(s: System, cpu: Cpu, service: Option<Reply>)
    requires Synced(s) && !s.inTick && !s.reset && InRequest(s.adapter)
    ensures Stuck(Go(Go(LowPhase(s, cpu, service), DropReady), Rise))
  {
    LowAgrees(s, cpu, service);
  }

  /** Driving the pins again before the edge is harmless exactly when no late answer was given in
      that low phase; otherwise the adapter takes the answer unseen and the pair is stuck. */
  lemma DrivingAgainIff(s: System)
    requires Synced(s) && s.inTick && !s.reset
    ensures Synced(Go(Go(s, Drive), Rise)) <==> s.link.pending == s.face.rspValid
    ensures s.link.pending != s.face.rspValid ==> Stuck(Go(Go(s, Drive), Rise))
  {
    if s.link.pending == s.face.rspValid {
      MoveKeepsSync(s, Drive);
      RiseSynced(Go(s, Drive));
    } else {
      var t := Go(s, Drive);
      OnFaceEdge(t.adapter, t.cpu, t.face);
      assert InAxiResponse(Edge(t.adapter, t.cpu, t.face));
    }
  }

  /** Raising reset is safe exactly when the adapter requests nothing; otherwise the reset tick
      captures a beat that the reset edge takes away, and the pair is stuck. */
  lemma RaisingResetIff(s: System, cpu: Cpu, service: Option<Reply>)
    requires Synced(s) && !s.inTick
    ensures Synced(Tick(Go(s, Level(true)), cpu, service)) <==> !InRequest(s.adapter)
    ensures InRequest(s.adapter) ==> Stuck(Tick(Go(s, Level(true)), cpu, service))
  {
    var t := Go(s, Level(true));
    if !InRequest(s.adapter) {
      LowQuiet(t, cpu, service);
      RiseSynced(LowPhase(t, cpu, service));
    }
  }
}
