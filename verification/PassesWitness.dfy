/** Journals of one read: a good one that the audit passes, one whose response projection names
    another transaction, and one whose completion is sampled before its response was.  The first
    pass accepts all three, so the further requirements do not follow from it. */
module PassesWitness {
  import opened Wrappers
  import opened TraceJournal
  import opened JournalReading
  import opened Replay
  import opened SerialRun
  import opened SerialTheorem
  import opened SecondPass
  import opened TwoPasses
  import opened TraceAudit

  const Fetch := Key("case", "cpu", 0, "memory", 1)
  const Stranger := Key("case", "cpu", 0, "memory", 2)

  /** One read of address 0, taken in the first tick, answered in the second, completed in the third. */
  function ReadPort(valid: bool, ready: bool): Native { Native(valid, ready, 0, 0, 0, 0, false) }

  const Quiet := Backend(false, false, 0, false, 0, 0, false, false, 0, false)
  const Asked := Backend(true, true, 0, false, 0, 15, false, false, 0, false)
  const Told := Backend(false, false, 0, false, 0, 0, true, true, 0, false)

  const Zeros := SnapshotBody("ram", 0, 0, [0, 0, 0, 0], [0, 0, 0, 0], [0, 0, 0, 0])
  const ReadDone := MemoryRead(4, 1, Fetch, 0, 4, 0, Zeros, None)
  const Completion := CompletedView(Fetch, Scope(3, 3), ReadPort(true, true), Scope(1, 1), Scope(2, 2),
                                    Some(Snapshot(Zeros, ["w", "w", "w", "w"], Fetch)), false)

  const NoAnswer := Outputs(0, 0, 0, 0)
  const HeardAnswer := Outputs(1, 1, 0, 0)

  const SecondPost := Sample(false, Scope(2, 2), 5, ReadPort(true, true), Told)
  const Nothing := Other("host")

  const TakenShown := AcceptedView(Fetch, Scope(1, 1), ReadPort(true, false))
  function AnswerShown(told: Key): Projection { ConsumedView(told, Scope(2, 2), 0, true) }

  /** The journal of that read.  The response projection names transaction `told`; the POST sample of
      the answering tick comes in its place or, when the completion is early, at the very end. */
  function Journal(told: Key, early: bool): seq<Event> {
    [Command(1, NoAnswer),
     Sample(true, Scope(1, 1), 1, ReadPort(true, false), Asked),
     Sample(false, Scope(1, 1), 1, ReadPort(true, false), Asked),
     Served(ReadDone),
     Command(2, HeardAnswer),
     Sample(true, Scope(2, 2), 5, ReadPort(true, false), Told),
     if early then Nothing else SecondPost,
     Command(3, NoAnswer),
     Sample(true, Scope(3, 3), 8, ReadPort(true, true), Quiet),
     Sample(false, Scope(3, 3), 8, ReadPort(false, false), Quiet),
     View(2, TakenShown),
     View(6, AnswerShown(told)),
     View(9, Completion),
     if early then SecondPost else Nothing]
  }

  const TheCall := Call([], 1, false, "case")

  function ThreeRows(early: bool): seq<Row> {
    [Row(2, 3, 1, Scope(1, 1), ReadPort(true, false), ReadPort(true, false), Asked),
     Row(6, if early then 14 else 7, 5, Scope(2, 2), ReadPort(true, false), ReadPort(true, true), Told),
     Row(9, 10, 8, Scope(3, 3), ReadPort(true, true), ReadPort(false, false), Quiet)]
  }

  /** The records the journal says. */
  function OneRead(told: Key, early: bool): Records {
    var events := Journal(told, early);
    Records(ThreeRows(early), 1, None, CommandOutputs(events), ComponentNames(events),
            map[(0, Accepted) := TakenShown, (1, Consumed) := AnswerShown(told), (2, Completed) := Completion],
            map[Fetch := 0], map[told := 1], map[Fetch := 2], map[Fetch := ReadDone], map[], [], [])
  }

  const OneTransfer := [Transfer(0, 1)]

  // ---------------------------------------------------------------- the journal says those records

  /** Which event stands where. */
  predicate IsJournal(events: seq<Event>, told: Key, early: bool) {
    && |events| == 14
    && events[0] == Command(1, NoAnswer)
    && events[1] == Sample(true, Scope(1, 1), 1, ReadPort(true, false), Asked)
    && events[2] == Sample(false, Scope(1, 1), 1, ReadPort(true, false), Asked)
    && events[3] == Served(ReadDone)
    && events[4] == Command(2, HeardAnswer)
    && events[5] == Sample(true, Scope(2, 2), 5, ReadPort(true, false), Told)
    && events[6] == (if early then Nothing else SecondPost)
    && events[7] == Command(3, NoAnswer)
    && events[8] == Sample(true, Scope(3, 3), 8, ReadPort(true, true), Quiet)
    && events[9] == Sample(false, Scope(3, 3), 8, ReadPort(false, false), Quiet)
    && events[10] == View(2, TakenShown)
    && events[11] == View(6, AnswerShown(told))
    && events[12] == View(9, Completion)
    && events[13] == (if early then SecondPost else Nothing)
  }

  lemma JournalIs(told: Key, early: bool)
    ensures IsJournal(Journal(told, early), told, early)
  {
  }

  /** Where each kind of event stands. */
  lemma Kinds(events: seq<Event>, told: Key, early: bool, e: nat)
    requires IsJournal(events, told, early) && e < |events|
    ensures events[e].Command? <==> e in {0, 4, 7}
    ensures events[e].Sample? <==> e in {1, 2, 5, 8, 9} || e == if early then 13 else 6
    ensures events[e].View? <==> e in {10, 11, 12}
    ensures events[e].Served? <==> e == 3
    ensures !events[e].Failure? && !events[e].DeviceAccepted? && !events[e].InstructionDone?
  {
    assert e == 0 || e == 1 || e == 2 || e == 3 || e == 4 || e == 5 || e == 6 || e == 7 || e == 8 || e == 9
           || e == 10 || e == 11 || e == 12 || e == 13;
  }

  lemma CommandsOf(events: seq<Event>, told: Key, early: bool)
    requires IsJournal(events, told, early)
    ensures CommandIds(events) == [1, 5, 8]
  {
    var ids := [1, 5, 8];
    assert ids[0] == 1 && ids[1] == 5 && ids[2] == 8;
    forall id: nat ensures IsCommand(events, id) <==> id in ids {
      if 0 < id <= |events| { Kinds(events, told, early, id - 1); }
    }
    CommandIdsAre(events, ids);
  }

  lemma NothingElse(events: seq<Event>, told: Key, early: bool)
    requires IsJournal(events, told, early)
    ensures FailureIds(events) == [] && CompletionEvents(events) == []
  {
    forall e | 0 <= e < |events| ensures !events[e].Failure? && !events[e].InstructionDone? {
      Kinds(events, told, early, e);
    }
    NoFailures(events);
    NoCompletions(events);
  }

  lemma RowIsPlaced(events: seq<Event>, told: Key, early: bool, rows: seq<Row>, i: nat)
    requires IsJournal(events, told, early) && rows == ThreeRows(early) && i < |rows|
    ensures RowPlaced(events, false, rows, i)
  {
    CommandsOf(events, told, early);
    assert i == 0 || i == 1 || i == 2;
  }

  lemma SampleBelongs(events: seq<Event>, told: Key, early: bool, rows: seq<Row>, e: nat)
    requires IsJournal(events, told, early) && rows == ThreeRows(early) && e < |events| && events[e].Sample?
    ensures Belongs(events, rows, e)
  {
    Kinds(events, told, early, e);
  }

  lemma RowsAreRead(events: seq<Event>, told: Key, early: bool, rows: seq<Row>)
    requires IsJournal(events, told, early) && rows == ThreeRows(early)
    ensures RowsRead(events, false, rows, None)
  {
    CommandsOf(events, told, early);
    NothingElse(events, told, early);
    forall i | 0 <= i < |rows| ensures RowPlaced(events, false, rows, i) { RowIsPlaced(events, told, early, rows, i); }
    forall e | 0 <= e < |events| && events[e].Sample? ensures Belongs(events, rows, e) {
      SampleBelongs(events, told, early, rows, e);
    }
  }

  lemma ServicesAreOk(events: seq<Event>, told: Key, early: bool)
    requires IsJournal(events, told, early)
    ensures ServicesOk(events, "case", false)
  {
    forall e | 0 <= e < |events| ensures (events[e].Served? <==> e == 3) && !events[e].DeviceAccepted? {
      Kinds(events, told, early, e);
    }
    assert PoisonKeys(events, |events|) == {};
  }

  lemma ServicesAreRead(events: seq<Event>, told: Key, early: bool)
    requires IsJournal(events, told, early)
    ensures ServicesRead(events, |events|, map[Fetch := ReadDone]) && AcceptancesRead(events, |events|, map[])
  {
    forall e | 0 <= e < |events| ensures (events[e].Served? <==> e == 3) && !events[e].DeviceAccepted? {
      Kinds(events, told, early, e);
    }
    assert IsService(events, 3, ReadDone);
  }

  /** The row that the projection in event `e` shows. */
  function ShownRow(e: nat): nat { if e == 10 then 0 else if e == 11 then 1 else 2 }

  lemma ViewIsShown(events: seq<Event>, told: Key, early: bool, r: Records, e: nat)
    requires IsJournal(events, told, early) && r == OneRead(told, early) && told.testcase == "case" && told.sequence > 0
    requires e < |events| && events[e].View?
    ensures e in {10, 11, 12} && ViewOfRow(events, r.rows, "case", e, ShownRow(e))
    ensures events[e].view.Kind() == if e == 10 then Accepted else if e == 11 then Consumed else Completed
    ensures HasView(r.rows, r.views, events[e])
  {
    Kinds(events, told, early, e);
    var i, kind := ShownRow(e), events[e].view.Kind();
    assert r.rows[i].preId == events[e].producer && (i, kind) in r.views && r.views[(i, kind)] == events[e].view;
  }

  lemma ViewsAreBound(events: seq<Event>, told: Key, early: bool, r: Records)
    requires IsJournal(events, told, early) && r == OneRead(told, early) && told.testcase == "case" && told.sequence > 0
    ensures ViewsBind(events, r.rows, "case")
  {
    forall e | 0 <= e < |events| && events[e].View?
      ensures exists i | 0 <= i < |r.rows| :: ViewOfRow(events, r.rows, "case", e, i)
    {
      ViewIsShown(events, told, early, r, e);
    }
    forall d, e | 0 <= d < e < |events| && events[d].View? && events[e].View?
      ensures ViewsApart(events[d], events[e])
    {
      ViewIsShown(events, told, early, r, d);
      ViewIsShown(events, told, early, r, e);
    }
  }

  lemma ShownIsView(events: seq<Event>, told: Key, early: bool, r: Records, i: nat, kind: Kind)
    requires IsJournal(events, told, early) && r == OneRead(told, early) && (i, kind) in r.views
    ensures i < |r.rows| && IsView(events, |events|, r.rows[i].preId, kind, r.views[(i, kind)])
  {
    var e := if kind == Accepted then 10 else if kind == Consumed then 11 else 12;
    assert events[e].View? && events[e].producer == r.rows[i].preId && events[e].view == r.views[(i, kind)];
  }

  lemma ViewsAreRead(events: seq<Event>, told: Key, early: bool, r: Records)
    requires IsJournal(events, told, early) && r == OneRead(told, early) && told.testcase == "case" && told.sequence > 0
    ensures ViewsRead(events, |events|, r.rows, r.views)
  {
    forall e | 0 <= e < |events| && events[e].View? ensures HasView(r.rows, r.views, events[e]) {
      ViewIsShown(events, told, early, r, e);
    }
    forall i, kind | (i, kind) in r.views
      ensures i < |r.rows| && IsView(events, |events|, r.rows[i].preId, kind, r.views[(i, kind)])
    {
      ShownIsView(events, told, early, r, i, kind);
    }
  }

  lemma OneReadIndexes(r: Records, told: Key, early: bool)
    requires r == OneRead(told, early)
    ensures IndexOk(r.views, Accepted, r.accepted) && IndexOk(r.views, Consumed, r.responses)
    ensures IndexOk(r.views, Completed, r.completions)
  {
    assert r.views.Keys == {(0, Accepted), (1, Consumed), (2, Completed)};
  }

  /** Whatever transaction of the session is told, in place or early: the journal says those records. */
  lemma OneReadIsRead(told: Key, early: bool)
    requires told.testcase == "case" && told.sequence > 0
    ensures Reads(Journal(told, early), TheCall, OneRead(told, early))
    ensures RecordsOk(OneRead(told, early)) && RecordsTyped(OneRead(told, early))
  {
    var events, r := Journal(told, early), OneRead(told, early);
    JournalIs(told, early);
    RowsAreRead(events, told, early, r.rows);
    ServicesAreOk(events, told, early);
    ServicesAreRead(events, told, early);
    ViewsAreBound(events, told, early, r);
    ViewsAreRead(events, told, early, r);
    OneReadIndexes(r, told, early);
    NothingElse(events, told, early);
    ReadsIsOk(events, TheCall, r);
    TypedFromOk(r);
  }

  // ---------------------------------------------------------------- the rows are a serial run

  lemma OneReadShakes(r: Records, told: Key, early: bool)
    requires r == OneRead(told, early)
    ensures forall i | 0 <= i < |r.rows| :: HandshakesAt(r.rows[i], OneTransfer, i)
  {
    assert OneTransfer[0].accept == 0 && OneTransfer[0].response == 1 && OneTransfer[0].End() == 2;
  }

  lemma ZerosAreZero()
    ensures LittleEndian(Zeros.data) == 0 && ServiceResponse(ReadDone) == Some(0) && Delivered([], ReadDone) == Some(0)
  {
    assert LittleEndian([0]) == 0;
    assert LittleEndian([0, 0]) == 0 by { assert [0, 0][1..] == [0]; }
    assert LittleEndian([0, 0, 0]) == 0 by { assert [0, 0, 0][1..] == [0, 0]; }
    assert LittleEndian([0, 0, 0, 0]) == 0 by { assert [0, 0, 0, 0][1..] == [0, 0, 0]; }
  }

  lemma HeardIn(r: Records, told: Key, early: bool)
    requires r == OneRead(told, early)
    ensures 5 in r.commands && r.commands[5] == HeardAnswer
  {
    JournalIs(told, early);
    assert EventOf(Journal(told, early), 5) == Command(2, HeardAnswer);
  }

  lemma OneReadJoined(r: Records, told: Key, early: bool)
    requires r == OneRead(told, early)
    ensures InRows(r, OneTransfer[0]) && Joined(r, OneTransfer[0], 1, false)
  {
    ZerosAreZero();
    HeardIn(r, told, early);
    assert AcceptJoin(r, 0, 1);
    assert ResponseJoin(r, 0, 1);
    assert CompletionJoin(r, 0, 1, 2);
  }

  lemma OneReadViews(r: Records, told: Key, early: bool)
    requires r == OneRead(told, early)
    ensures r.views.Keys == ViewsOf(OneTransfer, false)
  {
    assert OneTransfer[0].accept == 0 && OneTransfer[0].response == 1 && OneTransfer[0].End() == 2;
    forall v ensures v in ViewsOf(OneTransfer, false) <==> v in r.views.Keys {
      assert v in ViewsOf(OneTransfer, false) <==> v == (0, Accepted) || v == (1, Consumed) || v == (2, Completed);
    }
  }

  lemma OneReadHolds(early: bool)
    ensures HeldUntilReady(ThreeRows(early)) && Serial(OneTransfer)
  {
  }

  /** The rows of each of these journals are a serial run: the first pass accepts it. */
  lemma OneReadIsSerial(r: Records, told: Key, early: bool)
    requires r == OneRead(told, early)
    ensures IsSerialRun(r, OneTransfer)
  {
    OneReadJoined(r, told, early);
    OneReadViews(r, told, early);
    OneReadHolds(early);
    OneReadShakes(r, told, early);
    SerialParts(r);
  }

  /** The parts of a serial run with one transfer. */
  lemma SerialParts(r: Records)
    requires r.failure.None? && Serial(OneTransfer) && HeldUntilReady(r.rows)
    requires InRows(r, OneTransfer[0]) && Joined(r, OneTransfer[0], 1, false)
    requires forall i | 0 <= i < |r.rows| :: HandshakesAt(r.rows[i], OneTransfer, i)
    requires r.views.Keys == ViewsOf(OneTransfer, false)
    ensures IsSerialRun(r, OneTransfer)
  {
  }

  lemma OneReadIsServed(r: Records, told: Key, early: bool)
    requires r == OneRead(told, early)
    ensures ServiceChecks(r, r.rows[0], Fetch, ReadDone)
  {
  }

  /** Exactly without either fault the run meets the further requirements. */
  lemma OneReadExtraIff(r: Records, told: Key, early: bool)
    requires r == OneRead(told, early)
    ensures ExtraAt(r, OneTransfer, 0) <==> told == Fetch && !early
  {
    OneReadIsServed(r, told, early);
    assert KeyOf(r, OneTransfer, 0) == Fetch;
  }

  lemma OneReadNames(r: Records, told: Key, early: bool)
    requires r == OneRead(told, early)
    ensures (0, Accepted) in r.views && r.views[(0, Accepted)].key == Fetch
    ensures (1, Consumed) in r.views && r.views[(1, Consumed)].key == told
    ensures r.rows[2].preId == 9 && r.rows[1].postId == if early then 14 else 7
  {
  }

  /** A journal whose rows are a serial run although its response projection names another
      transaction than its request. */
  lemma ResponseCanBeForeign(events: seq<Event>, r: Records)
    requires events == Journal(Stranger, false) && r == OneRead(Stranger, false)
    ensures Reads(events, TheCall, r) && RecordsOk(r) && RecordsTyped(r) && IsSerialRun(r, OneTransfer)
    ensures r.views[(1, Consumed)].key != r.views[(0, Accepted)].key && !ExtraAt(r, OneTransfer, 0)
  {
    OneReadNames(r, Stranger, false);
    OneReadIsRead(Stranger, false);
    OneReadIsSerial(r, Stranger, false);
    OneReadExtraIff(r, Stranger, false);
  }

  /** A journal whose rows are a serial run although its completion has its PRE sample before the POST
      sample of its response. */
  lemma CompletionCanBeEarly(events: seq<Event>, r: Records)
    requires events == Journal(Fetch, true) && r == OneRead(Fetch, true)
    ensures Reads(events, TheCall, r) && RecordsOk(r) && RecordsTyped(r) && IsSerialRun(r, OneTransfer)
    ensures r.rows[2].preId < r.rows[1].postId && !ExtraAt(r, OneTransfer, 0)
  {
    OneReadNames(r, Fetch, true);
    OneReadIsRead(Fetch, true);
    OneReadIsSerial(r, Fetch, true);
    OneReadExtraIff(r, Fetch, true);
  }

  // ---------------------------------------------------------------- what the audit says of them

  lemma OneReadHasNoStrays(r: Records)
    requires r == OneRead(Fetch, false)
    ensures (0, Accepted) in r.views && NoStrays(r, OneTransfer)
  {
    var keys := Keys(r, OneTransfer, 1);
    assert keys == [Fetch] && Members(keys) == {Fetch} by { assert keys[0] == Fetch; }
  }

  lemma OneExtra(r: Records, told: Key, early: bool)
    requires r == OneRead(told, early) && told == Fetch && !early
    ensures AllExtra(r, OneTransfer)
  {
    OneReadExtraIff(r, told, early);
  }

  /** Rebuilt transfers with nothing left over make an audited run. */
  lemma RebuiltIsAudited(r: Records, joins: seq<Join>)
    requires RecordsOk(r) && RecordsTyped(r) && IsSerialRun(r, OneTransfer) && AllJoined(r, joins)
    requires (0, Accepted) in r.views && NoStrays(r, OneTransfer)
    ensures Audited(r, OneTransfer, joins)
  {
    JoinedIsExtra(r, OneTransfer, joins);
  }

  /** A journal with neither fault: it says records that are an audited run. */
  lemma OneReadCanPass(r: Records, told: Key, early: bool) returns (joins: seq<Join>)
    requires r == OneRead(told, early) && told == Fetch && !early
    ensures Reads(Journal(told, early), TheCall, r) && Audited(r, OneTransfer, joins)
  {
    OneReadIsRead(told, early);
    OneReadIsSerial(r, told, early);
    OneExtra(r, told, early);
    OneReadHasNoStrays(r);
    joins := ExtraIsJoined(r, OneTransfer);
    RebuiltIsAudited(r, joins);
  }

  /** An audited run of these records has the one transfer, which meets the further requirements. */
  lemma AuditedMeets(r: Records, ts: seq<Transfer>, joins: seq<Join>)
    requires RecordsOk(r) && IsSerialRun(r, OneTransfer) && Audited(r, ts, joins)
    ensures ts == OneTransfer && ExtraAt(r, OneTransfer, 0)
  {
    OneRun(r, ts, OneTransfer);
    assert ExtraAt(r, ts, 0);
  }

  lemma FaultyIsNotAudited(r: Records, told: Key, early: bool)
    requires r == OneRead(told, early) && told.testcase == "case" && told.sequence > 0 && (told != Fetch || early)
    ensures !exists ts, joins :: Audited(r, ts, joins)
  {
    OneReadIsRead(told, early);
    OneReadIsSerial(r, told, early);
    OneReadExtraIff(r, told, early);
    forall ts, joins | Audited(r, ts, joins) ensures false { AuditedMeets(r, ts, joins); }
  }

  /** The audit reads all these journals.  It passes the one without a fault, with its one transfer, and
      rejects every other. */
  method AuditOneRead(told: Key, early: bool) returns (v: Verdict)
    requires told.testcase == "case" && told.sequence > 0
    ensures !v.Unreadable? && v.records == OneRead(told, early)
    ensures v.Passed? <==> told == Fetch && !early
    ensures v.Passed? ==> v.transfers == OneTransfer
  {
    ghost var r := OneRead(told, early);
    OneReadIsRead(told, early);
    v := RawTransactionAudit(Journal(told, early), TheCall);
    OneReading(Journal(told, early), TheCall, v.records, r);
    if told == Fetch && !early {
      var joins := OneReadCanPass(r, told, early);
      if v.Passed? { AuditedMeets(r, v.transfers, v.joins); }
    } else {
      FaultyIsNotAudited(r, told, early);
    }
  }
}
