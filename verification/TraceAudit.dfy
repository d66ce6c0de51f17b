/** The whole audit of one recorded run, and what an accepted run is guaranteed to be. */
module TraceAudit {
  import opened Wrappers
  import opened TraceJournal
  import opened JournalReading
  import opened Collection
  import opened Replay
  import opened SerialRun
  import opened SerialTheorem
  import opened SecondPass
  import opened TwoPasses

  /** A journal that says no records is unreadable; any other is judged on its records. */
  datatype Verdict =
    | Unreadable
    | Rejected(records: Records)
    | Passed(records: Records, transfers: seq<Transfer>, joins: seq<Join>)

  /** Both passes accept: a serial run, fully rebuilt, with nothing left over. */
  ghost predicate Audited(r: Records, ts: seq<Transfer>, joins: seq<Join>) {
    && IsSerialRun(r, ts) && AllExtra(r, ts) && JoinsAre(r, ts, joins)
    && (forall k | 0 <= k < |ts| :: (ts[k].accept, Accepted) in r.views)
    && NoStrays(r, ts)
  }

  /** Both passes and the sweep between them, over collected records. */
  ghost predicate BothAccept(r: Records)
    requires RecordsTyped(r)
  {
    Accepts(r) && Swept(r) && SecondAccepts(r)
  }

  lemma SecondOnSerial(r: Records, ts: seq<Transfer>)
    requires RecordsOk(r) && RecordsTyped(r) && IsSerialRun(r, ts)
    ensures Swept(r)
    ensures forall k | 0 <= k < |ts| :: (ts[k].accept, Accepted) in r.views
    ensures SecondAccepts(r) <==> AllExtra(r, ts) && NoStrays(r, ts)
    ensures forall joins :: AllJoined(r, joins) ==> JoinsAre(r, ts, joins)
  {
    SweepIsRedundant(r, ts);
    forall k | 0 <= k < |ts| ensures (ts[k].accept, Accepted) in r.views { ViewAt(r, ts, k); }
    SecondPassIff(r, ts);
  }

  lemma AuditSound(r: Records, states: seq<State>, joins: seq<Join>)
    requires RecordsOk(r) && RecordsTyped(r) && AcceptsBy(r, states) && AllJoined(r, joins) && NothingLeft(r, joins)
    ensures Audited(r, Opened(states[|r.rows|]), joins)
  {
    AcceptedIsSerial(r, states);
    SecondOnSerial(r, Opened(states[|r.rows|]));
  }

  lemma AuditComplete(r: Records, ts: seq<Transfer>, joins: seq<Join>)
    requires RecordsOk(r) && RecordsTyped(r) && Audited(r, ts, joins)
    ensures BothAccept(r)
  {
    var states := SerialIsAccepted(r, ts);
    SecondOnSerial(r, ts);
  }

  /** The audit accepts exactly the records that some transfers make an audited run. */
  lemma AuditIff(r: Records)
    requires RecordsOk(r) && RecordsTyped(r)
    ensures BothAccept(r) <==> exists ts, joins :: Audited(r, ts, joins)
  {
    if BothAccept(r) {
      var states :| AcceptsBy(r, states);
      var joins :| AllJoined(r, joins) && NothingLeft(r, joins);
      AuditSound(r, states, joins);
    }
    forall ts, joins | Audited(r, ts, joins) ensures BothAccept(r) { AuditComplete(r, ts, joins); }
  }

  /** Replay, sweep, rebuild. */
  method Judge(r: Records) returns (ok: bool, transfers: seq<Transfer>, joins: seq<Join>)
    requires RecordsOk(r) && RecordsTyped(r)
    ensures ok <==> BothAccept(r)
    ensures ok ==> Audited(r, transfers, joins)
  {
    transfers, joins := [], [];
    var last;
    ghost var states;
    ok, last, states := ReplayRows(r);
    if !ok || !Swept(r) { return false, [], []; }
    var built := RebuildTransfers(r);
    if built.None? { return false, [], []; }
    OnlyJoining(r, built.value);
    if !NothingLeft(r, built.value) { return false, [], []; }
    AuditSound(r, states, built.value);
    transfers, joins := Opened(last), built.value;
  }

  lemma OnlyJoining(r: Records, joins: seq<Join>)
    requires RecordsTyped(r) && AllJoined(r, joins)
    ensures SecondAccepts(r) <==> NothingLeft(r, joins)
  {
    forall others | AllJoined(r, others) ensures others == joins { OneJoining(r, others, joins); }
  }

  ghost predicate Readable(events: seq<Event>, call: Call) { exists r :: Reads(events, call, r) }

  /** Read the whole journal into records: the ones it says, unless it says none. */
  method Collect(events: seq<Event>, call: Call) returns (r: Option<Records>)
    ensures r.Some? ==> Reads(events, call, r.value)
    ensures r.None? ==> !Readable(events, call)
  {
    var ok, rows, failure := PairSamples(events, call.allowTerminal);
    if !ok { return None; }
    var bound, services, acceptances;
    ok, services, acceptances := IndexServices(events, call.session, call.allowTerminal);
    if !ok { return None; }
    RowsReadOk(events, call.allowTerminal, rows, failure);
    ok, bound := BindViews(events, rows, call.session);
    if !ok {
      UnboundIsUnreadable(events, call, rows, failure);
      return None;
    }
    IndexesOf(bound);
    r := Some(Records(rows, call.maxWait, failure, CommandOutputs(events), ComponentNames(events), bound.views,
                      bound.accepted, bound.responses, bound.completions, services, acceptances,
                      CompletionEvents(events), call.faults));
  }

  lemma UnboundIsUnreadable(events: seq<Event>, call: Call, rows: seq<Row>, failure: Option<nat>)
    requires RowsRead(events, call.allowTerminal, rows, failure) && !ViewsBind(events, rows, call.session)
    ensures !Readable(events, call)
  {
    forall r | Reads(events, call, r) ensures false {
      RowsTwice(events, call.allowTerminal, rows, failure, r.rows, r.failure);
    }
  }

  lemma IndexesOf(b: Bound)
    requires b.Indexed()
    ensures IndexOk(b.views, Accepted, b.accepted) && IndexOk(b.views, Consumed, b.responses)
    ensures IndexOk(b.views, Completed, b.completions)
  {
    assert b.Index(Accepted) == b.accepted && b.Index(Consumed) == b.responses && b.Index(Completed) == b.completions;
  }

  /** The whole audit.  A journal passes exactly when it can be read and its records, of which there
      is only one set, make an audited run. */
  method RawTransactionAudit(events: seq<Event>, call: Call) returns (v: Verdict)
    ensures v.Unreadable? <==> !Readable(events, call)
    ensures !v.Unreadable? ==> Reads(events, call, v.records)
    ensures v.Passed? ==> Audited(v.records, v.transfers, v.joins)
    ensures v.Rejected? ==> !exists ts, joins :: Audited(v.records, ts, joins)
  {
    var r := Collect(events, call);
    if r.None? { return Unreadable; }
    ReadsIsOk(events, call, r.value);
    TypedFromOk(r.value);
    var ok, transfers, joins := Judge(r.value);
    AuditIff(r.value);
    v := if ok then Passed(r.value, transfers, joins) else Rejected(r.value);
  }
}
