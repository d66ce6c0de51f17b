/** The first pass accepts a journal exactly when its rows are a serial run. */
module SerialTheorem {
  import opened Wrappers
  import opened Sequences
  import opened TraceJournal
  import opened Replay
  import opened SerialRun
  import opened SerialProof

  lemma InvAtStart(r: Records)
    ensures Inv(r, Start, 0)
  {
    assert r.rows[..0] == [];
  }

  ghost predicate InvAt(r: Records, states: seq<State>, i: nat) {
    i < |states| && i <= |r.rows| && Inv(r, states[i], i)
  }

  lemma KeepsNext(r: Records, states: seq<State>, i: nat, st: State, next: State)
    requires RowsOk(r.rows, r.failure) && i < |r.rows| && i + 1 < |states| && st == states[i] && next == states[i + 1]
    requires Step(r, st, i) == Some(next) && InvAt(r, states, i)
    ensures InvAt(r, states, i + 1)
  {
    StepKeeps(r, st, i, next);
  }

  lemma KeepsAt(r: Records, states: seq<State>, k: nat)
    requires RowsOk(r.rows, r.failure) && Follows(r, states) && k + 1 < |states| && InvAt(r, states, k)
    ensures InvAt(r, states, k + 1)
  {
    StepsAt(r, states, k);
    KeepsNext(r, states, k, states[k], states[k + 1]);
  }

  ghost function SoundStages(r: Records, states: seq<State>): iset<nat> { iset k: nat | InvAt(r, states, k) }

  lemma SoundIsKept(r: Records, states: seq<State>)
    requires RowsOk(r.rows, r.failure) && Follows(r, states)
    ensures forall k: nat | k < |states| - 1 && k in SoundStages(r, states) :: k + 1 in SoundStages(r, states)
  {
    forall k: nat | k < |states| - 1 && k in SoundStages(r, states) ensures k + 1 in SoundStages(r, states) {
      KeepsAt(r, states, k);
    }
  }

  lemma SoundAtStart(r: Records, states: seq<State>)
    requires IsReplay(r, states)
    ensures 0 in SoundStages(r, states)
  {
    InvAtStart(r);
  }

  /** The invariant holds in every state of every replay. */
  lemma ReplayKeeps(r: Records, states: seq<State>, i: nat)
    requires RowsOk(r.rows, r.failure) && IsReplay(r, states) && i < |states|
    ensures InvAt(r, states, i)
  {
    SoundAtStart(r, states);
    SoundIsKept(r, states);
    EveryStage(SoundStages(r, states), i);
  }

  // ---------------------------------------------------------------- accepted => serial

  lemma OpenedHandshakes(r: Records, st: State, i: nat)
    requires EventsOk(r, st, |r.rows|) && i < |r.rows| && RefusalOk(r, st, |r.rows|) && Closes(r, st)
    ensures HandshakesAt(r.rows[i], Opened(st), i)
  {
    if st.pending.Some? {
      Appended(st.log, Transfer(st.pending.value.row, st.pending.value.answer.value.row), i);
    }
  }

  lemma OpenedJoined(r: Records, st: State, k: nat)
    requires LogOk(r, st, |r.rows|) && RefusalOk(r, st, |r.rows|) && Closes(r, st) && k < |Opened(st)|
    ensures InRows(r, Opened(st)[k]) && Joined(r, Opened(st)[k], k + 1, Refused(r, Opened(st), k))
  {
    if st.pending.None? {
      assert Opened(st)[k] == st.log[k];
    } else if k < |st.log| {
      assert Opened(st)[k] == st.log[k];
    }
  }

  lemma OpenedSerial(r: Records, st: State)
    requires LogOk(r, st, |r.rows|) && PendingOk(r, st, |r.rows|) && Closes(r, st)
    ensures Serial(Opened(st))
  {
    var ts := Opened(st);
    assert forall k | 0 <= k < |st.log| :: ts[k] == st.log[k] && InRows(r, ts[k]);
  }

  lemma OpenedViews(r: Records, st: State)
    requires BooksOk(st) && Closes(r, st) && RefusalOk(r, st, |r.rows|)
    ensures r.views.Keys == ViewsOf(Opened(st), r.failure.Some?)
    ensures r.failure.Some? ==> |Opened(st)| > 0 && Opened(st)[|Opened(st)| - 1].End() == |r.rows| - 1
  {
    if st.pending.Some? {
      ViewsAppended(st.log, Transfer(st.pending.value.row, st.pending.value.answer.value.row));
    }
  }

  /** Soundness: an accepted replay is a serial run of the transfers it went through. */
  lemma AcceptedIsSerial(r: Records, states: seq<State>)
    requires RowsOk(r.rows, r.failure) && AcceptsBy(r, states)
    ensures IsSerialRun(r, Opened(states[|r.rows|]))
  {
    ReplayKeeps(r, states, |r.rows|);
    InvIsSerial(r, states[|r.rows|]);
  }

  lemma AllOpenedHandshakes(r: Records, st: State)
    requires EventsOk(r, st, |r.rows|) && RefusalOk(r, st, |r.rows|) && Closes(r, st)
    ensures forall i | 0 <= i < |r.rows| :: HandshakesAt(r.rows[i], Opened(st), i)
  {
    forall i | 0 <= i < |r.rows| ensures HandshakesAt(r.rows[i], Opened(st), i) { OpenedHandshakes(r, st, i); }
  }

  lemma AllOpenedJoined(r: Records, st: State)
    requires LogOk(r, st, |r.rows|) && RefusalOk(r, st, |r.rows|) && Closes(r, st)
    ensures var ts := Opened(st);
            forall k | 0 <= k < |ts| :: InRows(r, ts[k]) && Joined(r, ts[k], k + 1, Refused(r, ts, k))
  {
    var ts := Opened(st);
    forall k | 0 <= k < |ts| ensures InRows(r, ts[k]) && Joined(r, ts[k], k + 1, Refused(r, ts, k)) {
      OpenedJoined(r, st, k);
    }
  }

  lemma OpenedHeld(r: Records, st: State)
    requires OfferOk(r, st, |r.rows|)
    ensures HeldUntilReady(r.rows)
  {
    assert r.rows[..|r.rows|] == r.rows;
  }

  lemma InvIsSerial(r: Records, st: State)
    requires Inv(r, st, |r.rows|) && Closes(r, st)
    ensures IsSerialRun(r, Opened(st))
  {
    AllOpenedHandshakes(r, st);
    AllOpenedJoined(r, st);
    OpenedHeld(r, st);
    OpenedViews(r, st);
    OpenedSerial(r, st);
  }

  // ---------------------------------------------------------------- serial => accepted

  /** The log is how the run begins. */
  ghost predicate Agrees(log: seq<Transfer>, ts: seq<Transfer>) {
    |log| <= |ts| && forall j | 0 <= j < |log| :: log[j] == ts[j]
  }

  /** Replay state `st` before row `i` is where the run `ts` says it should be. */
  ghost predicate OnTrack(r: Records, ts: seq<Transfer>, st: State, i: nat) {
    var k := |st.log|;
    && k <= |ts| && Agrees(st.log, ts)
    && (forall j | 0 <= j < k :: ts[j].End() < i)
    && (st.pending.None? ==> k < |ts| ==> i <= ts[k].accept)
    && (st.pending.Some? ==>
          && k < |ts| && st.pending.value.row == ts[k].accept < i
          && (st.pending.value.answer.None? ==> i <= ts[k].response)
          && (st.pending.value.answer.Some? ==>
                && st.pending.value.answer.value.row == ts[k].response < i
                && (i == ts[k].End() || (st.refusal.Some? && i == |r.rows|))))
    && (st.refusal.Some? ==> i == |r.rows|)
  }

  /** Which handshake row `i` may carry, given how far the replay has come. */
  lemma NextHandshake(r: Records, ts: seq<Transfer>, st: State, i: nat)
    requires i < |r.rows| && OnTrack(r, ts, st, i)
    requires Serial(ts) && HandshakesAt(r.rows[i], ts, i)
    ensures AcceptedNow(r.rows[i]) <==> st.pending.None? && |st.log| < |ts| && ts[|st.log|].accept == i
    ensures ConsumedNow(r.rows[i]) <==>
            st.pending.Some? && st.pending.value.answer.None? && ts[|st.log|].response == i
    ensures CompletedNow(r.rows[i]) <==> st.pending.Some? && st.pending.value.answer.Some?
  {
    var k := |st.log|;
    forall j | 0 <= j < |ts|
      ensures ts[j].accept == i ==> j == k && st.pending.None?
      ensures ts[j].response == i ==> j == k && st.pending.Some? && st.pending.value.answer.None?
      ensures ts[j].End() == i ==> j == k && st.pending.Some? && st.pending.value.answer.Some?
    {
      assert ts[j].accept < ts[j].response;
      if j > k { assert ts[k].End() < ts[j].accept; }
    }
  }

  lemma ObserveOk(r: Records, ts: seq<Transfer>, st: State, i: nat)
    requires RowsOk(r.rows, r.failure) && HeldUntilReady(r.rows) && Serial(ts)
    requires i < |r.rows| && OnTrack(r, ts, st, i) && OfferOk(r, st, i) && HandshakesAt(r.rows[i], ts, i)
    requires st.pending.Some? ==> ts[|st.log|].End() - ts[|st.log|].accept <= WaitBound(r)
    ensures Observe(r, st, i).Some?
  {
    NextHandshake(r, ts, st, i);
  }

  lemma HoldOk(r: Records, ts: seq<Transfer>, st: State, seen: State, i: nat)
    requires i < |r.rows| && OfferOk(r, st, i) && st.refusal.None?
    requires HeldUntilReady(r.rows) && HandshakesAt(r.rows[i], ts, i)
    requires Observe(r, st, i) == Some(seen) && !CompletedNow(r.rows[i])
    ensures Hold(r, seen, i).Some?
  {
  }

  lemma CompleteOk(r: Records, ts: seq<Transfer>, st: State, seen: State, i: nat)
    requires i < |r.rows| && OnTrack(r, ts, st, i) && OfferOk(r, st, i) && PendingOk(r, st, i)
    requires RowsOk(r.rows, r.failure) && Serial(ts) && HandshakesAt(r.rows[i], ts, i)
    requires Observe(r, st, i) == Some(seen) && CompletedNow(r.rows[i])
    requires |st.log| < |ts| ==>
               InRows(r, ts[|st.log|]) && Joined(r, ts[|st.log|], |st.log| + 1, Refused(r, ts, |st.log|))
    requires r.failure.Some? ==> |ts| > 0 && ts[|ts| - 1].End() == |r.rows| - 1
    ensures Complete(r, seen, i).Some?
  {
    NextHandshake(r, ts, st, i);
    TerminalIsLast(r, i);
    var k := |st.log|;
    if k < |ts| - 1 { assert ts[k].End() < ts[|ts| - 1].accept; }
    assert MayComplete(r, seen, i);
  }

  lemma OpenOk(r: Records, ts: seq<Transfer>, st: State, held: State, i: nat)
    requires i < |r.rows| && OnTrack(r, ts, st, i) && Serial(ts) && HandshakesAt(r.rows[i], ts, i)
    requires !CompletedNow(r.rows[i]) && held == st.(offered := held.offered)
             && st.sequence == |st.log| + (if st.pending.Some? then 1 else 0)
    requires |st.log| < |ts| ==>
               InRows(r, ts[|st.log|]) && Joined(r, ts[|st.log|], |st.log| + 1, Refused(r, ts, |st.log|))
    ensures Accept(r, held, i).Some? && Consume(r, Accept(r, held, i).value, i).Some?
  {
    NextHandshake(r, ts, st, i);
  }

  lemma StepOk(r: Records, ts: seq<Transfer>, st: State, i: nat)
    requires i < |r.rows| && OnTrack(r, ts, st, i) && Serial(ts) && HandshakesAt(r.rows[i], ts, i)
    requires RowsOk(r.rows, r.failure) && HeldUntilReady(r.rows)
    requires |st.log| < |ts| ==>
               InRows(r, ts[|st.log|]) && Joined(r, ts[|st.log|], |st.log| + 1, Refused(r, ts, |st.log|))
    requires r.failure.Some? ==> |ts| > 0 && ts[|ts| - 1].End() == |r.rows| - 1
    requires OfferOk(r, st, i) && PendingOk(r, st, i)
    requires st.sequence == |st.log| + (if st.pending.Some? then 1 else 0)
    ensures Step(r, st, i).Some?
  {
    ObserveOk(r, ts, st, i);
    var seen := Observe(r, st, i).value;
    if CompletedNow(r.rows[i]) {
      CompleteOk(r, ts, st, seen, i);
      NextHandshake(r, ts, st, i);
    } else {
      HoldOk(r, ts, st, seen, i);
      OpenOk(r, ts, st, Hold(r, seen, i).value, i);
    }
  }

  lemma StaysOnTrack(r: Records, ts: seq<Transfer>, st: State, i: nat, next: State)
    requires RowsOk(r.rows, r.failure) && Serial(ts) && i < |r.rows| && HandshakesAt(r.rows[i], ts, i)
    requires OnTrack(r, ts, st, i) && Step(r, st, i) == Some(next)
    ensures OnTrack(r, ts, next, i + 1)
  {
    AcceptedRow(r, st, i, next);
    NextHandshake(r, ts, st, i);
    TerminalIsLast(r, i);
    var k := |st.log|;
    if k < |ts| { assert ts[k].accept < ts[k].response; }
    if k + 1 < |ts| { assert ts[k].End() < ts[k + 1].accept; }
  }

  /** What a serial run offers the replay at row `i`, when `k` transfers are behind it. */
  lemma SerialParts(r: Records, ts: seq<Transfer>, i: nat, k: nat)
    requires IsSerialRun(r, ts) && i < |r.rows|
    ensures Serial(ts) && HandshakesAt(r.rows[i], ts, i) && HeldUntilReady(r.rows)
    ensures k < |ts| ==> InRows(r, ts[k]) && Joined(r, ts[k], k + 1, Refused(r, ts, k))
    ensures r.failure.Some? ==> |ts| > 0 && ts[|ts| - 1].End() == |r.rows| - 1
  {
  }

  lemma InvParts(r: Records, st: State, i: nat)
    requires i <= |r.rows| && Inv(r, st, i)
    ensures OfferOk(r, st, i) && PendingOk(r, st, i)
    ensures st.sequence == |st.log| + (if st.pending.Some? then 1 else 0)
  {
  }

  lemma SerialStep(r: Records, ts: seq<Transfer>, st: State, i: nat) returns (next: State)
    requires RowsOk(r.rows, r.failure) && IsSerialRun(r, ts) && i < |r.rows|
    requires Inv(r, st, i) && OnTrack(r, ts, st, i)
    ensures Step(r, st, i) == Some(next) && OnTrack(r, ts, next, i + 1)
  {
    SerialParts(r, ts, i, |st.log|);
    InvParts(r, st, i);
    StepOk(r, ts, st, i);
    next := Step(r, st, i).value;
    StaysOnTrack(r, ts, st, i, next);
  }

  /** The replay, before row `i`, is in a sound state of the run `ts`. */
  ghost predicate Tracked(r: Records, ts: seq<Transfer>, st: State, i: nat) {
    i <= |r.rows| && Inv(r, st, i) && OnTrack(r, ts, st, i)
  }

  lemma TrackedAtStart(r: Records, ts: seq<Transfer>)
    ensures Tracked(r, ts, Start, 0)
  {
    InvAtStart(r);
  }

  type Places = iset<(State, nat)>

  /** No row stops the replay, or takes it out of these places. */
  ghost predicate KeepsTo(r: Records, places: Places) {
    forall st, i: nat {:trigger Step(r, st, i)} | i < |r.rows| && (st, i) in places ::
      Step(r, st, i).Some? && (Step(r, st, i).value, i + 1) in places
  }

  lemma TrackedNext(r: Records, ts: seq<Transfer>, st: State, i: nat)
    requires RowsOk(r.rows, r.failure) && IsSerialRun(r, ts) && i < |r.rows| && Tracked(r, ts, st, i)
    ensures Step(r, st, i).Some? && Tracked(r, ts, Step(r, st, i).value, i + 1)
  {
    var next := SerialStep(r, ts, st, i);
    StepKeeps(r, st, i, next);
  }

  ghost function TrackedPlaces(r: Records, ts: seq<Transfer>): Places {
    iset st, i: nat | Tracked(r, ts, st, i) :: (st, i)
  }

  lemma SerialKeepsTo(r: Records, ts: seq<Transfer>)
    requires RowsOk(r.rows, r.failure) && IsSerialRun(r, ts)
    ensures KeepsTo(r, TrackedPlaces(r, ts))
  {
    forall st, i: nat | i < |r.rows| && (st, i) in TrackedPlaces(r, ts)
      ensures Step(r, st, i).Some? && (Step(r, st, i).value, i + 1) in TrackedPlaces(r, ts)
    {
      TrackedNext(r, ts, st, i);
    }
  }

  /** Those states lead from `first` through the first `n` rows to `last`. */
  ghost predicate LeadsTo(r: Records, states: seq<State>, first: State, last: State, n: nat) {
    |states| == n + 1 && Follows(r, states) && states[0] == first && states[n] == last
  }

  lemma LeadsOn(r: Records, before: seq<State>, first: State, last: State, n: nat, next: State)
    returns (states: seq<State>)
    requires LeadsTo(r, before, first, last, n) && n < |r.rows| && Step(r, last, n) == Some(next)
    ensures LeadsTo(r, states, first, next, n + 1)
  {
    OneMoreState(r, before, next);
    states := before + [next];
  }

  /** A replay that no row stops, row by row. */
  lemma {:induction false} ReplayOf(r: Records, places: Places, first: State, n: nat)
    returns (states: seq<State>, last: State)
    requires KeepsTo(r, places) && (first, 0) in places && n <= |r.rows|
    ensures LeadsTo(r, states, first, last, n) && (last, n) in places
  {
    states, last := [first], first;
    if n > 0 {
      var before, st := ReplayOf(r, places, first, n - 1);
      last := Step(r, st, n - 1).value;
      states := LeadsOn(r, before, first, st, n - 1, last);
    }
  }

  lemma TrackedReplay(r: Records, ts: seq<Transfer>, n: nat) returns (states: seq<State>, last: State)
    requires KeepsTo(r, TrackedPlaces(r, ts)) && n <= |r.rows|
    ensures LeadsTo(r, states, Start, last, n) && Tracked(r, ts, last, n)
  {
    TrackedAtStart(r, ts);
    states, last := ReplayOf(r, TrackedPlaces(r, ts), Start, n);
  }

  /** At the end the replay has been through the whole run. */
  lemma EndOfTrack(r: Records, ts: seq<Transfer>, st: State)
    requires RowsOk(r.rows, r.failure) && Serial(ts) && OnTrack(r, ts, st, |r.rows|)
    requires forall k | 0 <= k < |ts| :: InRows(r, ts[k])
    requires LogOk(r, st, |r.rows|) && RefusalOk(r, st, |r.rows|)
    requires r.failure.Some? ==> |ts| > 0 && ts[|ts| - 1].End() == |r.rows| - 1
    ensures Opened(st) == ts
    ensures r.failure.Some? <==> st.refusal.Some?
    ensures st.refusal.Some? ==> st.pending.Some? && st.pending.value.answer.Some?
    ensures st.refusal.None? ==> st.pending.None?
  {
    var n, k := |r.rows|, |st.log|;
    if 0 < n { TerminalIsLast(r, n - 1); }
    if k < |ts| {
      assert InRows(r, ts[k]);
      assert st.refusal.Some?;
      assert ts == st.log + [ts[k]];
    }
  }

  lemma EndCloses(r: Records, ts: seq<Transfer>, st: State)
    requires BooksOk(st) && Opened(st) == ts && r.views.Keys == ViewsOf(ts, r.failure.Some?)
    requires r.failure.Some? <==> st.refusal.Some?
    requires st.refusal.Some? ==> st.pending.Some? && st.pending.value.answer.Some?
    requires st.refusal.None? ==> st.pending.None?
    ensures Closes(r, st)
  {
    if st.pending.Some? {
      ViewsAppended(st.log, Transfer(st.pending.value.row, st.pending.value.answer.value.row));
    }
  }

  lemma EndAccepts(r: Records, ts: seq<Transfer>, st: State)
    requires RowsOk(r.rows, r.failure) && IsSerialRun(r, ts) && Tracked(r, ts, st, |r.rows|)
    ensures Closes(r, st) && Opened(st) == ts
  {
    EndOfTrack(r, ts, st);
    EndCloses(r, ts, st);
  }

  /** Completeness: the first pass accepts every serial run, and goes through its transfers. */
  lemma SerialIsAccepted(r: Records, ts: seq<Transfer>) returns (states: seq<State>)
    requires RowsOk(r.rows, r.failure) && IsSerialRun(r, ts)
    ensures AcceptsBy(r, states) && Opened(states[|r.rows|]) == ts
  {
    var st;
    SerialKeepsTo(r, ts);
    states, st := TrackedReplay(r, ts, |r.rows|);
    EndAccepts(r, ts, st);
  }

  /** The first pass accepts exactly the serial runs, and there is only one reading of each. */
  lemma ReplayIffSerial(r: Records)
    requires RowsOk(r.rows, r.failure)
    ensures Accepts(r) <==> exists ts :: IsSerialRun(r, ts)
    ensures forall ts, us :: IsSerialRun(r, ts) && IsSerialRun(r, us) ==> ts == us
  {
    forall states | AcceptsBy(r, states) ensures IsSerialRun(r, Opened(states[|r.rows|])) {
      AcceptedIsSerial(r, states);
    }
    forall ts | IsSerialRun(r, ts) ensures Accepts(r) { var states := SerialIsAccepted(r, ts); }
    forall ts, us | IsSerialRun(r, ts) && IsSerialRun(r, us) ensures ts == us { OneRun(r, ts, us); }
  }

  lemma OneRun(r: Records, ts: seq<Transfer>, us: seq<Transfer>)
    requires RowsOk(r.rows, r.failure) && IsSerialRun(r, ts) && IsSerialRun(r, us)
    ensures ts == us
  {
    var states := SerialIsAccepted(r, ts);
    var others := SerialIsAccepted(r, us);
    OneReplay(r, states, others, |r.rows|);
  }

  /** The auditor's closing count checks can never fail once the replay has accepted. */
  lemma CountsAgree(r: Records, states: seq<State>)
    requires RowsOk(r.rows, r.failure) && AcceptsBy(r, states)
    ensures var c := states[|r.rows|].counts;
            && c.accepted == c.responses == c.rawCompleted == c.completed + c.refusals
            && c.refusals == (if r.failure.Some? then 1 else 0)
  {
    ReplayKeeps(r, states, |r.rows|);
  }

  /** The requests held by a serial run never change between taking and completing. */
  lemma {:induction false} HeldThroughout(r: Records, ts: seq<Transfer>, k: nat, i: nat)
    requires IsSerialRun(r, ts) && k < |ts| && ts[k].accept <= i <= ts[k].End()
    ensures InRows(r, ts[k]) && Stable(r.rows[i].pre, r.rows[ts[k].accept].pre)
    ensures i < ts[k].End() ==> Stable(r.rows[i].post, r.rows[ts[k].accept].pre)
    decreases i
  {
    assert InRows(r, ts[k]);
    assert Joined(r, ts[k], k + 1, Refused(r, ts, k));
    if i > ts[k].accept { HeldThroughout(r, ts, k, i - 1); }
    if i < ts[k].End() && CompletedNow(r.rows[i]) { assert false; }
  }
}
