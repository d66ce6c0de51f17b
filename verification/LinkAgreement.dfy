/** Every allowed run of link and adapter keeps the two in step. */
module LinkAgreement {
  import opened Wrappers
  import opened LinkModel
  import opened Adapter
  import opened LinkSystem

  // ---------------------------------------------------------------- low phase and answers

  lemma LowAgrees(s: System, cpu: Cpu, service: Option<Reply>)
    requires Synced(s) && !s.inTick && !s.reset
    ensures Synced(LowPhase(s, cpu, service))
  {
  }

  lemma LowQuiet(s: System, cpu: Cpu, service: Option<Reply>)
    requires Synced(s) && !s.inTick && s.reset
    ensures Synced(LowPhase(s, cpu, service))
  {
  }

  lemma AnswerAgrees(s: System, reply: Reply)
    requires Synced(s)
    ensures Synced(s.(link := Answered(s.link, reply)))
  {
  }

  // ---------------------------------------------------------------- the rising edge

  /** A state off the beat face that neither waits for an answer nor carries one to the CPU. */
  predicate Aside(a: Regs) { RegsOk(a) && !InResponse(a) && !Owes(a) }

  lemma RefusalIsAside(t: Regs)
    ensures Aside(RefusedWrite(t))
  {
  }

  lemma CollectIsAside(a: Regs, c: Cpu)
    requires Collecting(a) && RegsOk(a)
    ensures Aside(CollectEdge(a, c))
  {
    var t := Taken(a, c);
    RefusalIsAside(t);
    assert t.state == a.state;
    assert Aside(ReadTaken(a, c.ar));
  }

  lemma OnFaceEdge(a: Regs, c: Cpu, face: Face)
    requires InRequest(a) || InResponse(a)
    requires RegsOk(a)
    ensures var b := Edge(a, c, face);
            && RegsOk(b)
            && (InRequest(a) ==> b == if face.reqReady then a.(state := b.state) else a)
            && (InRequest(a) && face.reqReady ==>
                  b.state == if a.state.WriteRequest? then WriteResponse else ReadResponse)
            && (InResponse(a) && !face.rspValid ==> b == a)
            && (InResponse(a) && face.rspValid ==>
                  InAxiResponse(b) && b.state.WriteAxiResponse? == a.state.WriteResponse? && Owes(b))
  {
  }

  /** Which edges enter and leave the states on the beat face. */
  lemma EdgeStates(a: Regs, c: Cpu, face: Face)
    requires RegsOk(a)
    ensures InResponse(Edge(a, c, face)) <==> (InRequest(a) && face.reqReady) || (InResponse(a) && !face.rspValid)
    ensures InRequest(a) && face.reqReady ==> Edge(a, c, face).state.WriteResponse? == a.state.WriteRequest?
    ensures InResponse(a) && !face.rspValid ==> Edge(a, c, face) == a
    ensures InResponse(a) && face.rspValid ==> InAxiResponse(Edge(a, c, face))
    ensures InAxiResponse(a) && !(BValid(a) && c.bready) && !(RValid(a) && c.rready) ==> Edge(a, c, face) == a
    ensures RegsOk(Edge(a, c, face))
  {
  }

  lemma RiseAgrees(s: System)
    requires s.inTick && AgreeInTick(s.link, s.adapter, s.face, s.cpu) && !s.reset && RegsOk(s.adapter)
    ensures AgreeBetween(EndTick(s.link), Edge(s.adapter, s.cpu, s.face))
  {
  }

  lemma OwedAfter(a: Regs, c: Cpu, face: Face)
    requires RegsOk(a)
    ensures Owes(Edge(a, c, face)) <==> (InResponse(a) && face.rspValid) || (Owes(a) && ReturnedBy(a, c) == [])
    ensures Owes(a) && ReturnedBy(a, c) == [] ==> Edge(a, c, face) == a
    ensures ReturnedBy(a, c) != [] ==> Owes(a)
    ensures |ReturnedBy(a, c)| <= 1
  {
  }

  lemma RiseReturns(g: Ledger, a: Regs, c: Cpu, face: Face)
    requires RegsOk(a) && Returns(g, a)
    ensures Returns(AdapterLedger(g, a, c, face), Edge(a, c, face))
  {
    OwedAfter(a, c, face);
    assert !(InResponse(a) && Owes(a));
  }

  lemma RiseBooks(s: System)
    requires s.inTick && !s.reset && Synced(s)
    ensures Books(RisingEdge(s))
  {
    var g := LinkLedger(s.ledger, s.link);
    RiseReturns(s.ledger, s.adapter, s.cpu, s.face);
    assert InResponse(s.adapter) && s.face.rspValid <==> !s.link.handshaked && s.link.seen.beatResponse;
  }

  lemma RiseSynced(s: System)
    requires s.inTick && Synced(s)
    ensures Synced(RisingEdge(s))
  {
    if !s.reset {
      RiseAgrees(s);
      RiseBooks(s);
      EdgeStates(s.adapter, s.cpu, s.face);
    }
  }

  // ---------------------------------------------------------------- every move, every run

  lemma MoveKeepsSync(s: System, m: Move)
    requires Synced(s) && Allowed(s, m)
    ensures Synced(Go(s, m))
  {
    match m
    case Low(cpu, service) => if s.reset { LowQuiet(s, cpu, service); } else { LowAgrees(s, cpu, service); }
    case GiveAnswer(reply) => AnswerAgrees(s, reply);
    case Drive =>
    case Rise => RiseSynced(s);
    case Level(reset) =>
    case Clear =>
    case DropReady =>
  }

  lemma {:induction false} EveryRunIsSynced(cpu: Cpu, moves: seq<Move>)
    requires AllAllowed(cpu, moves)
    ensures Synced(Reach(cpu, moves))
  {
    if moves != [] {
      EveryRunIsSynced(cpu, moves[..|moves| - 1]);
      MoveKeepsSync(Reach(cpu, moves[..|moves| - 1]), moves[|moves| - 1]);
    }
  }
}
