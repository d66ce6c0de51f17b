/** The first pass of the trace audit: one loop over the rows that carries the offered
    request, the pending transfer and a sequence number, and the declarative run it decides. */
module Replay {
  import opened Wrappers
  import opened TraceJournal

  datatype Answer = Answer(row: nat, value: Word)

  /** A request taken at row `row` and not completed yet. */
  datatype Pending = Pending(row: nat, answer: Option<Answer>)

  /** Rows at which a finished transfer was taken and answered; it completes one row later. */
  datatype Transfer = Transfer(accept: nat, response: nat) {
    function End(): nat { response + 1 }
  }

  datatype Counts = Counts(accepted: nat, responses: nat, rawCompleted: nat, completed: nat, refusals: nat)

  datatype State = State(offered: Option<Native>, pending: Option<Pending>, sequence: nat,
                         counts: Counts, used: set<(nat, Kind)>, refusal: Option<nat>,
                         log: seq<Transfer>)

  const Start := State(None, None, 0, Counts(0, 0, 0, 0, 0), {}, None, [])

  // ---------------------------------------------------------------- one row

  /** Latch a newly offered request, then insist that it has not changed and is not overdue. */
  function Observe(r: Records, st: State, i: nat): Option<State>
    requires i < |r.rows|
  {
    var row := r.rows[i];
    var offered := if st.offered.None? && row.pre.valid then Some(row.pre) else st.offered;
    if AcceptedNow(row) && ConsumedNow(row) then None
    else if offered.Some? && !Stable(row.pre, offered.value) then None
    else if st.pending.Some? && st.pending.value.row < |r.rows|
            && row.scope.tick - r.rows[st.pending.value.row].scope.tick > WaitBound(r) then None
    else Some(st.(offered := offered))
  }

  predicate MayComplete(r: Records, st: State, i: nat)
    requires i < |r.rows|
  {
    && st.pending.Some? && st.pending.value.answer.Some?
    && var p := st.pending.value;
    && p.row < |r.rows| && p.answer.value.row < |r.rows|
    && r.rows[i].scope.tick == r.rows[p.answer.value.row].scope.tick + 1
    && Stable(r.rows[i].pre, r.rows[p.row].pre)
    && r.rows[i].pre.rdata == p.answer.value.value
    && (p.row, Accepted) in r.views && r.views[(p.row, Accepted)].key in r.services
    && (if TerminalRow(r, i) then RefusalJoin(r, p.row, i)
        else CompletionJoin(r, p.row, p.answer.value.row, i))
  }

  function Complete(r: Records, st: State, i: nat): Option<State>
    requires i < |r.rows|
  {
    if !MayComplete(r, st, i) then None
    else
      var row := r.rows[i];
      var p := st.pending.value;
      var offered := if row.post.valid then Some(row.post) else None;
      if TerminalRow(r, i) then
        Some(st.(offered := offered, refusal := Some(i),
                 counts := st.counts.(rawCompleted := st.counts.rawCompleted + 1,
                                      refusals := st.counts.refusals + 1)))
      else
        Some(st.(offered := offered, pending := None, used := st.used + {(i, Completed)},
                 counts := st.counts.(rawCompleted := st.counts.rawCompleted + 1,
                                      completed := st.counts.completed + 1),
                 log := st.log + [Transfer(p.row, p.answer.value.row)]))
  }

  /** No native handshake on this row: the offer and the pending request must be held. */
  function Hold(r: Records, st: State, i: nat): Option<State>
    requires i < |r.rows|
  {
    var row := r.rows[i];
    if row.pre.ready then None
    else if st.offered.Some? && !Stable(row.post, st.offered.value) then None
    else if st.pending.Some? && !(st.pending.value.row < |r.rows|
                                  && Stable(row.pre, r.rows[st.pending.value.row].pre)) then None
    else Some(if st.offered.None? && row.post.valid then st.(offered := Some(row.post)) else st)
  }

  function Accept(r: Records, st: State, i: nat): Option<State>
    requires i < |r.rows|
  {
    if !AcceptedNow(r.rows[i]) then Some(st)
    else if st.pending.Some? || CompletedNow(r.rows[i]) || !AcceptJoin(r, i, st.sequence + 1) then None
    else Some(st.(pending := Some(Pending(i, None)), sequence := st.sequence + 1,
                  used := st.used + {(i, Accepted)},
                  counts := st.counts.(accepted := st.counts.accepted + 1)))
  }

  function Consume(r: Records, st: State, i: nat): Option<State>
    requires i < |r.rows|
  {
    if !ConsumedNow(r.rows[i]) then Some(st)
    else if st.pending.None? || st.pending.value.answer.Some? then None
    else
      var p := st.pending.value;
      if p.row < |r.rows| && (p.row, Accepted) in r.views && r.views[(p.row, Accepted)].key in r.services
         && ResponseJoin(r, p.row, i) then
        Some(st.(pending := Some(p.(answer := Some(Answer(i, r.rows[i].backend.rspRdata)))),
                 used := st.used + {(i, Consumed)},
                 counts := st.counts.(responses := st.counts.responses + 1)))
      else None
  }

  function Step(r: Records, st: State, i: nat): Option<State>
    requires i < |r.rows|
  {
    var st :- Observe(r, st, i);
    var st :- if CompletedNow(r.rows[i]) then Complete(r, st, i) else Hold(r, st, i);
    var st :- Accept(r, st, i);
    Consume(r, st, i)
  }

  /** Row `i` takes the replay from one state to the next. */
  predicate Steps(r: Records, states: seq<State>, i: nat)
    requires i < |r.rows| && i + 1 < |states|
  {
    Step(r, states[i], i) == Some(states[i + 1])
  }

  /** Row by row, the states follow from the first of them. */
  ghost predicate Follows(r: Records, states: seq<State>) {
    && 0 < |states| <= |r.rows| + 1
    && forall i {:trigger Steps(r, states, i)} | 0 <= i < |states| - 1 :: Steps(r, states, i)
  }

  /** The states of a replay of the first rows, from before the first one on. */
  ghost predicate IsReplay(r: Records, states: seq<State>) { Follows(r, states) && states[0] == Start }

  /** The closing checks on projections, the terminal state and the pending transfer. */
  predicate Closes(r: Records, st: State) {
    && st.used == r.views.Keys
    && (if r.failure.Some? then st.refusal.Some? && st.pending.Some? && st.pending.value.answer.Some?
        else st.pending.None? && st.refusal.None?)
  }

  /** A replay of all rows that may end there. */
  ghost predicate AcceptsBy(r: Records, states: seq<State>) {
    |states| == |r.rows| + 1 && IsReplay(r, states) && Closes(r, states[|r.rows|])
  }

  ghost predicate Accepts(r: Records) { exists states :: AcceptsBy(r, states) }

  /** There is only one replay. */
  lemma {:induction false} OneReplay(r: Records, states: seq<State>, others: seq<State>, i: nat)
    requires IsReplay(r, states) && IsReplay(r, others) && i < |states| && i < |others|
    ensures states[i] == others[i]
  {
    if i > 0 {
      OneReplay(r, states, others, i - 1);
      assert Steps(r, states, i - 1) && Steps(r, others, i - 1);
    }
  }

  lemma OneMoreState(r: Records, states: seq<State>, next: State)
    requires Follows(r, states) && |states| <= |r.rows| && Step(r, states[|states| - 1], |states| - 1) == Some(next)
    ensures Follows(r, states + [next])
  {
    var more := states + [next];
    forall i | 0 <= i < |more| - 1 ensures Steps(r, more, i) {
      assert i < |states| - 1 ==> Steps(r, states, i);
    }
  }

  lemma StepsAt(r: Records, states: seq<State>, i: nat)
    requires Follows(r, states) && i + 1 < |states|
    ensures Step(r, states[i], i) == Some(states[i + 1])
  {
    assert Steps(r, states, i);
  }

  /** A row without a next state ends every replay. */
  lemma StopsHere(r: Records, states: seq<State>)
    requires IsReplay(r, states) && |states| <= |r.rows| && Step(r, states[|states| - 1], |states| - 1).None?
    ensures !Accepts(r)
  {
    var i := |states| - 1;
    forall others | AcceptsBy(r, others) ensures false {
      StepsAt(r, others, i);
      OneReplay(r, states, others, i);
    }
  }

  lemma AcceptsIff(r: Records, states: seq<State>)
    requires IsReplay(r, states) && |states| == |r.rows| + 1
    ensures Accepts(r) <==> Closes(r, states[|r.rows|])
  {
    if Closes(r, states[|r.rows|]) { assert AcceptsBy(r, states); }
    forall others | AcceptsBy(r, others) ensures Closes(r, states[|r.rows|]) { OneReplay(r, states, others, |r.rows|); }
  }

  // ---------------------------------------------------------------- the loop

  /** A native handshake on this row closes the pending transfer. */
  method CompleteRow(r: Records, before: State, i: nat) returns (after: Option<State>)
    requires i < |r.rows|
    ensures after == Complete(r, before, i)
  {
    if !MayComplete(r, before, i) { return None; }
    var row, st := r.rows[i], before;
    st := st.(counts := st.counts.(rawCompleted := st.counts.rawCompleted + 1));
    if TerminalRow(r, i) {
      st := st.(refusal := Some(i), counts := st.counts.(refusals := st.counts.refusals + 1));
    } else {
      var p := st.pending.value;
      st := st.(used := st.used + {(i, Completed)}, pending := None,
                counts := st.counts.(completed := st.counts.completed + 1),
                log := st.log + [Transfer(p.row, p.answer.value.row)]);
    }
    return Some(st.(offered := if row.post.valid then Some(row.post) else None));
  }

  /** The two handshakes that open a transfer and answer it. */
  method OpenRow(r: Records, before: State, i: nat) returns (after: Option<State>)
    requires i < |r.rows|
    ensures after == var st :- Accept(r, before, i); Consume(r, st, i)
  {
    var row, st := r.rows[i], before;
    if AcceptedNow(row) {
      if st.pending.Some? || CompletedNow(row) || !AcceptJoin(r, i, st.sequence + 1) { return None; }
      st := st.(sequence := st.sequence + 1, used := st.used + {(i, Accepted)},
                pending := Some(Pending(i, None)),
                counts := st.counts.(accepted := st.counts.accepted + 1));
    }
    if ConsumedNow(row) {
      if st.pending.None? || st.pending.value.answer.Some? { return None; }
      var p := st.pending.value;
      if !(p.row < |r.rows| && (p.row, Accepted) in r.views && r.views[(p.row, Accepted)].key in r.services
           && ResponseJoin(r, p.row, i)) { return None; }
      st := st.(pending := Some(p.(answer := Some(Answer(i, row.backend.rspRdata)))),
                used := st.used + {(i, Consumed)},
                counts := st.counts.(responses := st.counts.responses + 1));
    }
    return Some(st);
  }

  /** One turn of the loop: updates in place, reject at the first failed requirement. */
  method ReplayRow(r: Records, before: State, i: nat) returns (after: Option<State>)
    requires i < |r.rows|
    ensures after == Step(r, before, i)
  {
    var row, st := r.rows[i], before;
    if AcceptedNow(row) && ConsumedNow(row) { return None; }
    if st.offered.None? && row.pre.valid { st := st.(offered := Some(row.pre)); }
    if st.offered.Some? && !Stable(row.pre, st.offered.value) { return None; }
    if st.pending.Some? && st.pending.value.row < |r.rows|
       && row.scope.tick - r.rows[st.pending.value.row].scope.tick > WaitBound(r) { return None; }
    assert Observe(r, before, i) == Some(st);
    if CompletedNow(row) {
      after := CompleteRow(r, st, i);
      if after.None? { return; }
      st := after.value;
    } else {
      if row.pre.ready { return None; }
      if st.offered.Some? && !Stable(row.post, st.offered.value) { return None; }
      if st.pending.Some? && !(st.pending.value.row < |r.rows|
                               && Stable(row.pre, r.rows[st.pending.value.row].pre)) { return None; }
      if st.offered.None? && row.post.valid { st := st.(offered := Some(row.post)); }
    }
    after := OpenRow(r, st, i);
  }

  /** The auditor's loop over the rows. */
  method ReplayRows(r: Records) returns (ok: bool, last: State, ghost states: seq<State>)
    ensures ok <==> Accepts(r)
    ensures ok ==> AcceptsBy(r, states) && last == states[|r.rows|]
  {
    last, states := Start, [Start];
    for i := 0 to |r.rows|
      invariant |states| == i + 1 && IsReplay(r, states) && states[i] == last
    {
      var next := ReplayRow(r, last, i);
      if next.None? {
        StopsHere(r, states);
        return false, last, states;
      }
      OneMoreState(r, states, next.value);
      last, states := next.value, states + [next.value];
    }
    ok := Closes(r, last);
    AcceptsIff(r, states);
  }
}
