/** Every row the first pass accepts keeps the invariant; an accepted replay is a serial run. */
module SerialProof {
  import opened Wrappers
  import opened TraceJournal
  import opened Replay
  import opened SerialRun

  // ---------------------------------------------------------------- what one accepted row does

  /** The five things a row can do. */
  datatype Move = Idle | Take | Hear | Finish | Refuse

  function MoveOf(row: Row, terminal: bool): Move {
    if CompletedNow(row) then (if terminal then Refuse else Finish)
    else if AcceptedNow(row) then Take
    else if ConsumedNow(row) then Hear
    else Idle
  }

  /** One handshake per row at most, and ready only with valid. */
  predicate OneHandshake(row: Row) {
    && !(AcceptedNow(row) && ConsumedNow(row))
    && !(CompletedNow(row) && (AcceptedNow(row) || ConsumedNow(row)))
    && (row.pre.ready ==> row.pre.valid)
  }

  /** How the state changes, whatever the joins say. */
  predicate Changes(st: State, next: State, i: nat, move: Move, value: Word) {
    match move
    case Idle => next == st.(offered := next.offered)
    case Take =>
      && st.pending.None?
      && next == st.(offered := next.offered, pending := Some(Pending(i, None)), sequence := st.sequence + 1,
                     used := st.used + {(i, Accepted)},
                     counts := st.counts.(accepted := st.counts.accepted + 1))
    case Hear =>
      && st.pending.Some? && st.pending.value.answer.None?
      && next == st.(offered := next.offered,
                     pending := Some(st.pending.value.(answer := Some(Answer(i, value)))),
                     used := st.used + {(i, Consumed)},
                     counts := st.counts.(responses := st.counts.responses + 1))
    case Finish =>
      && st.pending.Some? && st.pending.value.answer.Some?
      && next == st.(offered := next.offered, pending := None, used := st.used + {(i, Completed)},
                     counts := st.counts.(rawCompleted := st.counts.rawCompleted + 1,
                                          completed := st.counts.completed + 1),
                     log := st.log + [Transfer(st.pending.value.row, st.pending.value.answer.value.row)])
    case Refuse =>
      && st.pending.Some? && st.pending.value.answer.Some?
      && next == st.(offered := next.offered, refusal := Some(i),
                     counts := st.counts.(rawCompleted := st.counts.rawCompleted + 1,
                                          refusals := st.counts.refusals + 1))
  }

  /** What the row's samples must look like next to the offer carried in. */
  predicate Offers(st: State, next: State, row: Row) {
    && (st.offered.Some? ==> Stable(row.pre, st.offered.value))
    && var offered := if st.offered.None? && row.pre.valid then Some(row.pre) else st.offered;
    && (if CompletedNow(row) then next.offered == (if row.post.valid then Some(row.post) else None)
        else
          && (offered.Some? ==> Stable(row.post, offered.value))
          && next.offered == (if offered.None? && row.post.valid then Some(row.post) else offered))
  }

  predicate Overdue(r: Records, st: State, i: nat)
    requires i < |r.rows|
  {
    && st.pending.Some? && st.pending.value.row < |r.rows|
    && r.rows[i].scope.tick - r.rows[st.pending.value.row].scope.tick > WaitBound(r)
  }

  predicate Opens(r: Records, st: State, i: nat, move: Move)
    requires i < |r.rows|
  {
    && (move == Take ==> AcceptJoin(r, i, st.sequence + 1))
    && (move == Hear ==>
          && st.pending.Some? && st.pending.value.row < |r.rows|
          && (st.pending.value.row, Accepted) in r.views
          && r.views[(st.pending.value.row, Accepted)].key in r.services
          && ResponseJoin(r, st.pending.value.row, i))
  }

  lemma AcceptedRow(r: Records, st: State, i: nat, next: State)
    requires i < |r.rows| && Step(r, st, i) == Some(next)
    ensures OneHandshake(r.rows[i])
    ensures Changes(st, next, i, MoveOf(r.rows[i], TerminalRow(r, i)), r.rows[i].backend.rspRdata)
    ensures Offers(st, next, r.rows[i])
    ensures !Overdue(r, st, i)
    ensures CompletedNow(r.rows[i]) ==> MayComplete(r, st, i)
    ensures Opens(r, st, i, MoveOf(r.rows[i], TerminalRow(r, i)))
  {
    var row := r.rows[i];
    var seen := Observe(r, st, i).value;
    var settled := if CompletedNow(row) then Complete(r, seen, i).value else Hold(r, seen, i).value;
    if CompletedNow(row) {
      assert MayComplete(r, seen, i) == MayComplete(r, st, i);
      assert !AcceptedNow(row);
      assert Accept(r, settled, i) == Some(settled);
      assert next == settled;
    } else {
      var taken := Accept(r, settled, i).value;
      if AcceptedNow(row) { assert next == taken; }
    }
  }

  // ---------------------------------------------------------------- list facts

  lemma Appended(ts: seq<Transfer>, t: Transfer, i: nat)
    ensures TakenAt(ts + [t], i) <==> TakenAt(ts, i) || t.accept == i
    ensures AnsweredAt(ts + [t], i) <==> AnsweredAt(ts, i) || t.response == i
    ensures EndedAt(ts + [t], i) <==> EndedAt(ts, i) || t.End() == i
  {
    var us := ts + [t];
    assert us[|ts|] == t;
    if k :| 0 <= k < |ts| && ts[k].accept == i { assert us[k].accept == i; }
    if k :| 0 <= k < |ts| && ts[k].response == i { assert us[k].response == i; }
    if k :| 0 <= k < |ts| && ts[k].End() == i { assert us[k].End() == i; }
  }

  lemma ViewsAppended(ts: seq<Transfer>, t: Transfer)
    ensures ViewsOf(ts + [t], false)
         == ViewsOf(ts, false) + {(t.accept, Accepted), (t.response, Consumed), (t.End(), Completed)}
    ensures ViewsOf(ts + [t], true)
         == ViewsOf(ts, false) + {(t.accept, Accepted), (t.response, Consumed)}
  {
    var us := ts + [t];
    assert us[|ts|] == t && forall k | 0 <= k < |ts| :: us[k] == ts[k];
    forall v: (nat, Kind)
      ensures v in ViewsOf(us, false) <==>
              v in ViewsOf(ts, false) + {(t.accept, Accepted), (t.response, Consumed), (t.End(), Completed)}
      ensures v in ViewsOf(us, true) <==>
              v in ViewsOf(ts, false) + {(t.accept, Accepted), (t.response, Consumed)}
    {
      if v in ViewsOf(ts, false) {
        if k :| 0 <= k < |ts| && v == (ts[k].accept, Accepted) { assert v == (us[k].accept, Accepted); }
        if k :| 0 <= k < |ts| && v == (ts[k].response, Consumed) { assert v == (us[k].response, Consumed); }
        if k :| 0 <= k < |ts| && v == (ts[k].End(), Completed) { assert v == (us[k].End(), Completed); }
      }
    }
  }

  // ---------------------------------------------------------------- the invariant is kept

  /** Only the last row of a run that ended in a failure is a terminal row. */
  lemma TerminalIsLast(r: Records, i: nat)
    requires RowsOk(r.rows, r.failure) && i < |r.rows|
    ensures TerminalRow(r, i) <==> r.failure.Some? && i == |r.rows| - 1
  {
  }

  /** The open transfer, once the next row completes it, is joined in full. */
  lemma FinishedIsJoined(r: Records, st: State, i: nat)
    requires RowsOk(r.rows, r.failure) && i < |r.rows| && PendingOk(r, st, i)
    requires MayComplete(r, st, i) && !Overdue(r, st, i)
    ensures st.pending.value.row < st.pending.value.answer.value.row == i - 1
    ensures Joined(r, Transfer(st.pending.value.row, i - 1), |st.log| + 1, TerminalRow(r, i))
  {
  }

  lemma LogKept(r: Records, st: State, i: nat, next: State, move: Move, value: Word)
    requires RowsOk(r.rows, r.failure) && i < |r.rows| && Changes(st, next, i, move, value)
    requires LogOk(r, st, i) && PendingOk(r, st, i)
    requires move == Finish ==> !TerminalRow(r, i) && MayComplete(r, st, i) && !Overdue(r, st, i)
    ensures LogOk(r, next, i + 1)
  {
    if move == Finish {
      FinishedIsJoined(r, st, i);
      LogAppended(r, st, i, Transfer(st.pending.value.row, i - 1), next);
    } else {
      assert next.log == st.log;
    }
  }

  lemma LogAppended(r: Records, st: State, i: nat, t: Transfer, next: State)
    requires LogOk(r, st, i) && InRows(r, t) && t.End() == i && Joined(r, t, |st.log| + 1, false)
    requires forall k | 0 <= k < |st.log| :: st.log[k].End() < t.accept
    requires next.log == st.log + [t]
    ensures LogOk(r, next, i + 1)
  {
  }

  lemma PendingKept(r: Records, st: State, i: nat, next: State, move: Move)
    requires i < |r.rows| && Changes(st, next, i, move, r.rows[i].backend.rspRdata)
    requires LogOk(r, st, i) && PendingOk(r, st, i) && BooksOk(st) && Opens(r, st, i, move)
    ensures PendingOk(r, next, i + 1)
  {
  }

  lemma RefusalKept(r: Records, st: State, i: nat, next: State, move: Move, value: Word)
    requires RowsOk(r.rows, r.failure) && i < |r.rows| && Changes(st, next, i, move, value)
    requires PendingOk(r, st, i) && RefusalOk(r, st, i)
    requires move == Refuse ==> TerminalRow(r, i) && MayComplete(r, st, i) && !Overdue(r, st, i)
    ensures RefusalOk(r, next, i + 1)
  {
  }

  lemma EventsKept(r: Records, st: State, i: nat, next: State, move: Move, value: Word)
    requires i < |r.rows| && Changes(st, next, i, move, value) && OneHandshake(r.rows[i])
    requires move == MoveOf(r.rows[i], TerminalRow(r, i))
    requires LogOk(r, st, i) && st.refusal.None? && EventsOk(r, st, i)
    requires st.pending.Some? ==> st.pending.value.row < i
    requires st.pending.Some? && st.pending.value.answer.Some? ==>
               st.pending.value.answer.value.row < i
               && (CompletedNow(r.rows[i]) ==> st.pending.value.answer.value.row + 1 == i)
    ensures EventsOk(r, next, i + 1)
  {
    forall j | 0 <= j < i + 1
      ensures (AcceptedNow(r.rows[j]) <==> TakenAt(next.log, j) || PendingAt(next, j))
      ensures (ConsumedNow(r.rows[j]) <==> AnsweredAt(next.log, j) || AnswerAt(next, j))
      ensures (CompletedNow(r.rows[j]) <==> EndedAt(next.log, j) || next.refusal == Some(j))
      ensures (r.rows[j].pre.ready ==> r.rows[j].pre.valid)
    {
      assert !TakenAt(st.log, i) && !AnsweredAt(st.log, i) && !EndedAt(st.log, i);
      if move == Finish {
        Appended(st.log, Transfer(st.pending.value.row, st.pending.value.answer.value.row), j);
      }
    }
  }

  lemma OfferKept(r: Records, st: State, i: nat, next: State, move: Move, value: Word)
    requires i < |r.rows| && Changes(st, next, i, move, value) && Offers(st, next, r.rows[i])
    requires move == MoveOf(r.rows[i], TerminalRow(r, i)) && OfferOk(r, st, i) && st.refusal.None?
    requires move == Take ==> r.rows[i].pre.valid
    ensures OfferOk(r, next, i + 1)
  {
  }

  lemma BooksKept(st: State, i: nat, next: State, move: Move, value: Word)
    requires Changes(st, next, i, move, value) && BooksOk(st) && st.refusal.None?
    requires move == Finish ==> st.pending.value.answer.value.row + 1 == i
    ensures BooksOk(next)
  {
    if move == Finish {
      ViewsAppended(st.log, Transfer(st.pending.value.row, st.pending.value.answer.value.row));
    }
  }

  lemma StepKeeps(r: Records, st: State, i: nat, next: State)
    requires RowsOk(r.rows, r.failure) && i < |r.rows| && Inv(r, st, i) && Step(r, st, i) == Some(next)
    ensures Inv(r, next, i + 1)
  {
    AcceptedRow(r, st, i, next);
    var move, value := MoveOf(r.rows[i], TerminalRow(r, i)), r.rows[i].backend.rspRdata;
    if CompletedNow(r.rows[i]) { FinishedIsJoined(r, st, i); }
    LogKept(r, st, i, next, move, value);
    PendingKept(r, st, i, next, move);
    RefusalKept(r, st, i, next, move, value);
    EventsKept(r, st, i, next, move, value);
    OfferKept(r, st, i, next, move, value);
    BooksKept(st, i, next, move, value);
  }
}
