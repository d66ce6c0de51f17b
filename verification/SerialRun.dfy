/** What the first pass decides, said without a state machine: a strictly serial, bounded,
    fully projected run.  `ReplayIffSerial` is the equivalence. */
module SerialRun {
  import opened Wrappers
  import opened TraceJournal
  import opened Replay

  // ---------------------------------------------------------------- the declarative run

  predicate TakenAt(ts: seq<Transfer>, i: nat) { exists k | 0 <= k < |ts| :: ts[k].accept == i }

  predicate AnsweredAt(ts: seq<Transfer>, i: nat) { exists k | 0 <= k < |ts| :: ts[k].response == i }

  predicate EndedAt(ts: seq<Transfer>, i: nat) { exists k | 0 <= k < |ts| :: ts[k].End() == i }

  /** Transfers do not overlap: each is taken, later answered, completed on the next row, and
      only then is the next one taken. */
  ghost predicate Serial(ts: seq<Transfer>) {
    && (forall k | 0 <= k < |ts| :: ts[k].accept < ts[k].response)
    && (forall k, l | 0 <= k < l < |ts| :: ts[k].End() < ts[l].accept)
  }

  /** The handshakes on row `i` are exactly the ones the transfers account for. */
  predicate HandshakesAt(row: Row, ts: seq<Transfer>, i: nat) {
    && (AcceptedNow(row) <==> TakenAt(ts, i))
    && (ConsumedNow(row) <==> AnsweredAt(ts, i))
    && (CompletedNow(row) <==> EndedAt(ts, i))
    && (row.pre.ready ==> row.pre.valid)
  }

  /** Ready/valid stability between neighbouring samples: a request once offered stays offered
      unchanged until the PRE sample that completes it. */
  ghost predicate HeldUntilReady(rows: seq<Row>) {
    && (forall i | 0 <= i < |rows| ::
          rows[i].pre.valid && !CompletedNow(rows[i]) ==> Stable(rows[i].post, rows[i].pre))
    && (forall i | 0 < i < |rows| ::
          rows[i - 1].post.valid ==> Stable(rows[i].pre, rows[i - 1].post))
  }

  /** The views the transfers account for; a refused completion has none. */
  function ViewsOf(ts: seq<Transfer>, refused: bool): set<(nat, Kind)> {
    (set k | 0 <= k < |ts| :: (ts[k].accept, Accepted))
    + (set k | 0 <= k < |ts| :: (ts[k].response, Consumed))
    + (set k | 0 <= k < |ts| - (if refused then 1 else 0) :: (ts[k].End(), Completed))
  }

  predicate InRows(r: Records, t: Transfer) { t.accept < t.response && t.End() < |r.rows| }

  /** Transfer `t` is the `n`-th one and everything it claims is joined. */
  predicate Joined(r: Records, t: Transfer, n: nat, refused: bool)
    requires InRows(r, t)
  {
    && AcceptJoin(r, t.accept, n)
    && ResponseJoin(r, t.accept, t.response)
    && r.rows[t.End()].pre.rdata == r.rows[t.response].backend.rspRdata
    && t.End() - t.accept <= WaitBound(r)
    && (if refused then RefusalJoin(r, t.accept, t.End())
        else !TerminalRow(r, t.End()) && CompletionJoin(r, t.accept, t.response, t.End()))
  }

  /** `k` is the transfer whose completion the run refused. */
  predicate Refused(r: Records, ts: seq<Transfer>, k: nat) { r.failure.Some? && k == |ts| - 1 }

  ghost predicate IsSerialRun(r: Records, ts: seq<Transfer>) {
    && Serial(ts)
    && (forall k | 0 <= k < |ts| :: InRows(r, ts[k]))
    && (forall i | 0 <= i < |r.rows| :: HandshakesAt(r.rows[i], ts, i))
    && HeldUntilReady(r.rows)
    && (forall k | 0 <= k < |ts| :: InRows(r, ts[k]) && Joined(r, ts[k], k + 1, Refused(r, ts, k)))
    && r.views.Keys == ViewsOf(ts, r.failure.Some?)
    && (r.failure.Some? ==> |ts| > 0 && ts[|ts| - 1].End() == |r.rows| - 1)
  }

  // ---------------------------------------------------------------- the invariant

  /** All transfers seen so far, the open one included once it has been answered. */
  function Opened(st: State): seq<Transfer> {
    if st.pending.Some? && st.pending.value.answer.Some?
    then st.log + [Transfer(st.pending.value.row, st.pending.value.answer.value.row)] else st.log
  }

  predicate PendingAt(st: State, i: nat) { st.pending.Some? && st.pending.value.row == i }

  predicate AnswerAt(st: State, i: nat) {
    st.pending.Some? && st.pending.value.answer.Some? && st.pending.value.answer.value.row == i
  }

  /** The transfers in the log are finished, serial and joined. */
  ghost predicate LogOk(r: Records, st: State, n: nat) {
    && Serial(st.log)
    && (forall k | 0 <= k < |st.log| ::
          InRows(r, st.log[k]) && st.log[k].End() < n && Joined(r, st.log[k], k + 1, false))
  }

  /** The open transfer starts after every finished one and is joined as far as it goes. */
  ghost predicate PendingOk(r: Records, st: State, n: nat)
    requires n <= |r.rows|
  {
    st.pending.Some? ==>
      && var p := st.pending.value;
      && p.row < n
      && (forall k | 0 <= k < |st.log| :: st.log[k].End() < p.row)
      && AcceptJoin(r, p.row, |st.log| + 1)
      && (p.answer.Some? ==>
            && p.row < p.answer.value.row < n
            && ResponseJoin(r, p.row, p.answer.value.row)
            && p.answer.value.value == r.rows[p.answer.value.row].backend.rspRdata)
  }

  /** The one refused completion: it happened on the last row, right after the answer. */
  ghost predicate RefusalOk(r: Records, st: State, n: nat)
    requires n <= |r.rows|
  {
    st.refusal.Some? ==>
      && r.failure.Some? && st.pending.Some? && st.pending.value.answer.Some?
      && var p := st.pending.value;
      && n == |r.rows| && st.refusal.value == n - 1 == p.answer.value.row + 1
      && InRows(r, Transfer(p.row, p.answer.value.row))
      && AcceptJoin(r, p.row, |st.log| + 1)
      && Joined(r, Transfer(p.row, p.answer.value.row), |st.log| + 1, true)
  }

  /** Every handshake on the rows read so far is accounted for. */
  ghost predicate EventsOk(r: Records, st: State, n: nat)
    requires n <= |r.rows|
  {
    forall i | 0 <= i < n ::
      && (AcceptedNow(r.rows[i]) <==> TakenAt(st.log, i) || PendingAt(st, i))
      && (ConsumedNow(r.rows[i]) <==> AnsweredAt(st.log, i) || AnswerAt(st, i))
      && (CompletedNow(r.rows[i]) <==> EndedAt(st.log, i) || st.refusal == Some(i))
      && (r.rows[i].pre.ready ==> r.rows[i].pre.valid)
  }

  /** The offer is what the last POST sample shows, and it is the pending request. */
  ghost predicate OfferOk(r: Records, st: State, n: nat)
    requires n <= |r.rows|
  {
    && HeldUntilReady(r.rows[..n])
    && (n == 0 ==> st.offered.None?)
    && (n > 0 ==> (st.offered.Some? <==> r.rows[n - 1].post.valid))
    && (n > 0 && st.offered.Some? ==> Stable(r.rows[n - 1].post, st.offered.value) && st.offered.value.valid)
    && (st.pending.Some? && st.refusal.None? ==>
          && st.offered.Some? && st.pending.value.row < n
          && Stable(st.offered.value, r.rows[st.pending.value.row].pre)
          && Stable(r.rows[st.pending.value.row].pre, st.offered.value))
  }

  function OpenViews(st: State): set<(nat, Kind)> {
    (if st.pending.Some? then {(st.pending.value.row, Accepted)} else {})
    + (if st.pending.Some? && st.pending.value.answer.Some?
       then {(st.pending.value.answer.value.row, Consumed)} else {})
  }

  /** accepted = completed + open, responses = completed + answered, and so on. */
  ghost predicate BooksOk(st: State) {
    && st.counts.completed == |st.log|
    && st.counts.accepted == st.sequence == |st.log| + (if st.pending.Some? then 1 else 0)
    && st.counts.responses == |Opened(st)|
    && st.counts.refusals == (if st.refusal.Some? then 1 else 0)
    && st.counts.rawCompleted == |st.log| + (if st.refusal.Some? then 1 else 0)
    && st.used == ViewsOf(st.log, false) + OpenViews(st)
  }

  ghost predicate Inv(r: Records, st: State, n: nat)
    requires n <= |r.rows|
  {
    && LogOk(r, st, n) && PendingOk(r, st, n) && RefusalOk(r, st, n)
    && EventsOk(r, st, n) && OfferOk(r, st, n) && BooksOk(st)
  }
}
