/** The clock-phase schedule of models that share one grid of steps. */
module PhaseClock {

  import opened Division

  // ---------------------------------------------------------------- levels and edges

  function Level(step: nat, half: nat): nat
    requires half > 0
  {
    step / half % 2
  }

  predicate Rise(step: nat, half: nat)
    requires half > 0
  {
    step != 0 && Level(step, half) != 0 && Level(step - 1, half) == 0
  }

  /** The level goes up at the odd multiples of the half period. */
  lemma RiseAtMultiple(step: nat, half: nat)
    requires half > 0
    ensures Rise(step, half) <==> step % half == 0 && step / half % 2 == 1
  {
    if step > 0 {
      NextDiv(step - 1, half);
      ParityStep((step - 1) / half);
    } else {
      DivIs(0, half, 0, 0);
    }
  }

  lemma ParityStep(q: nat)
    ensures (q + 1) % 2 != q % 2
  {
  }

  lemma EvenMultiple(k: int, b: int, half: nat)
    requires half > 0 && 0 <= b < half
    ensures (2 * k * half + b + half) % (2 * half) == half + b
    ensures ((2 * k + 1) * half + b + half) % (2 * half) == b
  {
    assert 2 * k * half + b + half == k * (2 * half) + (half + b);
    DivIs(2 * k * half + b + half, 2 * half, k, half + b);
    assert (2 * k + 1) * half + b + half == (k + 1) * (2 * half) + b;
    DivIs((2 * k + 1) * half + b + half, 2 * half, k + 1, b);
  }

  /** A clock rises first after one half period and then once in every period. */
  lemma RiseIs(step: nat, half: nat)
    requires half > 0
    ensures Rise(step, half) <==> (step + half) % (2 * half) == 0
  {
    RiseAtMultiple(step, half);
    var a, b := step / half, step % half;
    var k := a / 2;
    EvenMultiple(k, b, half);
    assert a == 2 * k || a == 2 * k + 1;
    assert step == a * half + b;
  }

  /** The rising edges in steps 1 to n. */
  function Edges(half: nat, n: nat): nat
    requires half > 0
  {
    if n == 0 then 0 else Edges(half, n - 1) + if Rise(n, half) then 1 else 0
  }

  lemma {:induction false} EdgesIs(half: nat, n: nat)
    requires half > 0
    ensures Edges(half, n) == (n + half) / (2 * half)
  {
    if n == 0 {
      DivIs(half, 2 * half, 0, half);
    } else {
      EdgesIs(half, n - 1);
      NextDiv(n - 1 + half, 2 * half);
      RiseIs(n, half);
    }
  }

  /** A window of at most a period holds at most one edge, one of at least a period at least one. */
  lemma EdgesInWindow(half: nat, step: nat, window: nat)
    requires half > 0
    ensures window <= 2 * half ==> Edges(half, step) <= Edges(half, step + window) <= Edges(half, step) + 1
    ensures window >= 2 * half ==> Edges(half, step + window) >= Edges(half, step) + 1
    ensures window == 2 * half ==> Edges(half, step + window) == Edges(half, step) + 1
  {
    EdgesIs(half, step);
    EdgesIs(half, step + window);
    WiderDiv(step + half, window, 2 * half);
  }

  // ---------------------------------------------------------------- the gates

  datatype Gates = Gates(trace: bool, response: bool, probe: bool)

  predicate RisesWithin(step: nat, half: nat, window: nat)
    requires half > 0
  {
    exists s: nat :: step < s <= step + window && Rise(s, half)
  }

  /** The gates of a tick that starts after `step`: the trace gate opens exactly when an edge
      happens inside the tick. */
  method SampleGates(step: nat, half: nat, pending: bool, window: nat) returns (g: Gates)
    requires half > 0
    ensures g.trace <==> RisesWithin(step, half, window)
    ensures g.response == pending
    ensures g.probe <==> Rise(step, half) || Rise(step + 1, half)
  {
    var trace := false;
    var offset := 1;
    while offset <= window
      invariant 1 <= offset <= window + 1
      invariant trace <==> RisesWithin(step, half, offset - 1)
    {
      trace := trace || Rise(step + offset, half);
      offset := offset + 1;
    }
    g := Gates(trace, pending, Rise(step, half) || Rise(step + 1, half));
  }

  /** An edge happens in a window exactly when the count grows over it. */
  lemma {:induction false} WithinIff(step: nat, half: nat, window: nat)
    requires half > 0
    ensures RisesWithin(step, half, window) <==> Edges(half, step + window) > Edges(half, step)
    ensures Edges(half, step + window) >= Edges(half, step)
  {
    if window > 0 {
      WithinIff(step, half, window - 1);
      assert RisesWithin(step, half, window) <==> RisesWithin(step, half, window - 1) || Rise(step + window, half);
    }
  }

  // ---------------------------------------------------------------- counting ticks

  /** Tick j advances 2c steps from step 2cj. */
  predicate TraceGate(half: nat, c: nat, j: nat)
    requires half > 0
  {
    RisesWithin(2 * c * j, half, 2 * c)
  }

  /** The ticks among the first n whose trace gate is open. */
  function TraceTicks(half: nat, c: nat, n: nat): nat
    requires half > 0
  {
    if n == 0 then 0 else TraceTicks(half, c, n - 1) + if TraceGate(half, c, n - 1) then 1 else 0
  }

  lemma TickEnds(c: nat, j: nat)
    ensures 2 * c * (j + 1) == 2 * c * j + 2 * c
  {
  }

  /** For a clock no faster than the reference every edge opens the trace gate of one tick and no
      tick holds two: the open ticks are the edges. */
  lemma {:induction false} TraceTicksAreEdges(half: nat, c: nat, n: nat)
    requires half >= c >= 1
    ensures TraceTicks(half, c, n) == Edges(half, 2 * c * n) == (2 * c * n + half) / (2 * half)
  {
    EdgesIs(half, 2 * c * n);
    if n > 0 {
      TraceTicksAreEdges(half, c, n - 1);
      TickEnds(c, n - 1);
      TickEdges(half, c, 2 * c * (n - 1));
    }
  }

  /** A tick of at most a period holds an edge or none. */
  lemma TickEdges(half: nat, c: nat, step: nat)
    requires half >= c >= 1
    ensures Edges(half, step + 2 * c) == Edges(half, step) + if RisesWithin(step, half, 2 * c) then 1 else 0
  {
    WithinIff(step, half, 2 * c);
    EdgesInWindow(half, step, 2 * c);
  }

  /** A clock at least as fast as the reference has an edge in every tick. */
  lemma FastClockEveryTick(half: nat, c: nat, j: nat)
    requires 0 < half <= c
    ensures TraceGate(half, c, j)
  {
    WithinIff(2 * c * j, half, 2 * c);
    EdgesInWindow(half, 2 * c * j, 2 * c);
  }

  /** At c = 1 the trace gate opens once in any `half` consecutive ticks. */
  lemma TraceOncePerPeriod(half: nat, j: nat)
    requires half > 0
    ensures TraceTicks(half, 1, j + half) == TraceTicks(half, 1, j) + 1
  {
    TraceTicksAreEdges(half, 1, j);
    TraceTicksAreEdges(half, 1, j + half);
    EdgesInWindow(half, 2 * j, 2 * half);
  }

  predicate ProbeGate(half: nat, j: nat)
    requires half > 0
  {
    Rise(2 * j, half) || Rise(2 * j + 1, half)
  }

  function ProbeTicks(half: nat, n: nat): nat
    requires half > 0
  {
    if n == 0 then 0 else ProbeTicks(half, n - 1) + if ProbeGate(half, n - 1) then 1 else 0
  }

  /** The probe gates of the first n ticks see the edges before step 2n, each once. */
  lemma {:induction false} ProbeTicksAreEdges(half: nat, n: nat)
    requires half > 0
    ensures ProbeTicks(half, n) == if n == 0 then 0 else Edges(half, 2 * n - 1)
  {
    if n == 1 {
      assert Edges(half, 1) == Edges(half, 0) + if Rise(1, half) then 1 else 0;
      assert ProbeTicks(half, 1) == ProbeTicks(half, 0) + if ProbeGate(half, 0) then 1 else 0;
    } else if n > 1 {
      ProbeTicksAreEdges(half, n - 1);
      EdgesInWindow(half, 2 * n - 3, 2);
      assert Edges(half, 2 * n - 1) == Edges(half, 2 * n - 2) + if Rise(2 * n - 1, half) then 1 else 0;
      assert Edges(half, 2 * n - 2) == Edges(half, 2 * n - 3) + if Rise(2 * n - 2, half) then 1 else 0;
    }
  }

  /** At c = 1 the probe gate opens once in any `half` consecutive ticks. */
  lemma ProbeOncePerPeriod(half: nat, j: nat)
    requires half > 0
    ensures ProbeTicks(half, j + half) == ProbeTicks(half, j) + 1
  {
    ProbeTicksAreEdges(half, j);
    ProbeTicksAreEdges(half, j + half);
    if j == 0 {
      EdgesIs(half, 2 * half - 1);
      DivIs(3 * half - 1, 2 * half, 1, half - 1);
    } else {
      EdgesInWindow(half, 2 * j - 1, 2 * half);
    }
  }
}
