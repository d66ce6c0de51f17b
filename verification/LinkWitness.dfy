/** Runs that reach each of the link's failures. */
module LinkWitness {
  import opened Wrappers
  import opened LinkModel
  import opened Adapter
  import opened LinkSystem
  import opened LinkAgreement
  import opened LinkProgress
  import History = LinkHistory

  const NoAw := AwPins(false, 0, 0, 0, 0, false, 0)
  const NoW := WPins(false, 0, 0, false)
  const Idle := Cpu(NoAw, NoW, false, ArPins(false, 0, 0, 0, 0, false), false)

  /** The CPU asks for one 8-byte read of address 0. */
  const Asking := Idle.(ar := ArPins(true, 0, 0, 3, 1, false))

  lemma OneMoreMove(cpu: Cpu, moves: seq<Move>, m: Move)
    requires AllAllowed(cpu, moves) && Allowed(Reach(cpu, moves), m)
    ensures AllAllowed(cpu, moves + [m]) && Reach(cpu, moves + [m]) == Go(Reach(cpu, moves), m)
  {
    assert (moves + [m])[..|moves|] == moves;
  }

  /** The run so far, its state, and one more move on it. */
  lemma Extend(moves: seq<Move>, s: System, m: Move) returns (more: seq<Move>, t: System)
    requires AllAllowed(Idle, moves) && s == Reach(Idle, moves) && Allowed(s, m)
    ensures more == moves + [m] && t == Go(s, m) && AllAllowed(Idle, more) && t == Reach(Idle, more)
  {
    OneMoreMove(Idle, moves, m);
    more, t := moves + [m], Go(s, m);
  }

  /** Out of reset and asked for a read, the adapter requests a beat. */
  lemma Requesting() returns (moves: seq<Move>, s: System)
    ensures AllAllowed(Idle, moves) && s == Reach(Idle, moves)
    ensures !s.inTick && !s.reset && s.adapter.state == ReadRequest && !s.link.pending && !s.link.waiting
  {
    moves, s := [], PowerOn(Idle);
    moves, s := Extend(moves, s, Low(Idle, None));
    moves, s := Extend(moves, s, Rise);
    assert s.adapter == InReset && s.clocked && !s.link.handshaked;
    moves, s := Extend(moves, s, Level(false));
    moves, s := Extend(moves, s, Low(Asking, None));
    assert s.adapter == InReset && s.cpu == Asking && !s.link.handshaked;
    moves, s := Extend(moves, s, Rise);
    assert s.adapter == Edge(InReset, Asking, FaceOf(Fresh));
  }

  /** A late answer in a low phase: driving the pins again before its edge is not allowed, and whoever
      does it leaves the pair stuck. */
  lemma LateAnswerCanBeLost(reply: Reply) returns (moves: seq<Move>)
    ensures AllAllowed(Idle, moves)
    ensures var s := Reach(Idle, moves);
            s.inTick && !s.reset && s.link.pending != s.face.rspValid && Stuck(Go(Go(s, Drive), Rise))
  {
    var s;
    moves, s := Requesting();
    EveryRunIsSynced(Idle, moves);
    moves, s := Extend(moves, s, Low(Idle, None));
    moves, s := Extend(moves, s, Rise);
    assert s.adapter.state == ReadResponse && s.link.waiting && !s.link.pending;
    moves, s := Extend(moves, s, Low(Idle, None));
    moves, s := Extend(moves, s, GiveAnswer(reply));
    EveryRunIsSynced(Idle, moves);
    DrivingAgainIff(s);
  }

  /** Raising reset while the adapter requests a beat leaves the pair stuck. */
  lemma ResetCanBeTooEarly(service: Option<Reply>) returns (moves: seq<Move>)
    ensures AllAllowed(Idle, moves)
    ensures var s := Reach(Idle, moves);
            !s.inTick && InRequest(s.adapter) && Stuck(Tick(Go(s, Level(true)), Idle, service))
  {
    var s;
    moves, s := Requesting();
    EveryRunIsSynced(Idle, moves);
    RaisingResetIff(s, Idle, service);
  }

  /** A forget in the middle of a beat: from then on the counters do not balance. */
  lemma ForgetCanUnbalance(beat: Beat) returns (calls: seq<History.Call>)
    ensures History.IsRun(calls) && History.After(calls).log.carried == 1 && !History.Balanced(History.After(calls))
  {
    var asked := History.Begin(Pins(true, beat, false, false, false), None);
    calls := [asked, History.End, History.ForgetCalls];
    assert calls[..2][..1] == [asked] && calls[..2] == [asked, History.End] && [asked][..0] == [];
    assert History.IsRun([]) && History.After([]) == History.Start;
    assert History.IsRun([asked]) && History.After([asked]) == History.Do(History.Start, asked);
    assert History.IsRun(calls[..2]) && History.After(calls[..2]) == History.Do(History.After([asked]), History.End);
    History.TrafficBalancesIff(calls);
  }
}
