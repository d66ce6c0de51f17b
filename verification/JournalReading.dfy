/** What a journal says: which records a reader of it has to come back with.

    Nothing here searches or loops.  `Reads` relates a journal to its records; at most one set of
    records is so related to it, and a journal without any is unreadable. */
module JournalReading {
  import opened Wrappers
  import opened TraceJournal
  import opened Sequences

  /** An event of the journal, as far as the auditor looks at it; every kind but the last comes
      from the CPU's own component. */
  datatype Event =
    | Sample(isPre: bool, scope: Scope, producer: nat, native: Native, backend: Backend)
    | Command(tick: nat, outputs: Outputs)
    | Failure
    | Served(service: Service)
    | DeviceAccepted(acceptance: Acceptance)
    | View(producer: nat, view: Projection)
    | InstructionDone(key: Key, producer: nat)
    | Other(component: string)

  // ---------------------------------------------------------------- rows

  predicate IsSample(events: seq<Event>, id: nat, isPre: bool, command: nat) {
    && 0 < id <= |events| && events[id - 1].Sample?
    && events[id - 1].isPre == isPre && events[id - 1].scope.command == command
  }

  /** The ids of the step commands, in journal order. */
  function CommandIds(events: seq<Event>): (ids: seq<nat>)
    ensures forall j | 0 <= j < |ids| :: 0 < ids[j] <= |events| && events[ids[j] - 1].Command?
  {
    if events == [] then []
    else
      var last := |events| - 1;
      CommandIds(events[..last]) + if events[last].Command? then [last + 1] else []
  }

  function FailureIds(events: seq<Event>): (ids: seq<nat>)
    ensures forall j | 0 <= j < |ids| :: 0 < ids[j] <= |events| && events[ids[j] - 1].Failure?
  {
    if events == [] then []
    else
      var last := |events| - 1;
      FailureIds(events[..last]) + if events[last].Failure? then [last + 1] else []
  }

  /** The row holds exactly what its two samples show. */
  predicate RowFrom(events: seq<Event>, row: Row) {
    && IsSample(events, row.preId, true, row.scope.command) && IsSample(events, row.postId, false, row.scope.command)
    && var pre, post := events[row.preId - 1], events[row.postId - 1];
    && pre.scope == post.scope == row.scope && pre.producer == post.producer == row.producer
    && pre.native == row.pre && post.native == row.post && pre.backend == row.backend
  }

  /** The producer of row `i` is the `i`-th step command, or the failure that ended the run. */
  predicate ProducerOk(events: seq<Event>, i: nat, producer: nat, terminal: bool) {
    && 0 < producer <= |events|
    && (if terminal then events[producer - 1].Failure?
        else i < |CommandIds(events)| && producer == CommandIds(events)[i] && events[producer - 1].tick == i + 1)
  }

  /** Row `i` is made of the samples of command `i + 1`, which belong together. */
  predicate RowSamples(events: seq<Event>, i: nat, row: Row) {
    RowFrom(events, row) && row.scope == Scope(i + 1, i + 1) && row.producer < row.preId < row.postId
  }

  predicate RowAt(events: seq<Event>, i: nat, row: Row, terminal: bool) {
    RowSamples(events, i, row) && ProducerOk(events, i, row.producer, terminal)
  }

  /** A sample is one of the two of its command's row. */
  predicate Belongs(events: seq<Event>, rows: seq<Row>, e: nat)
    requires e < |events| && events[e].Sample?
  {
    var c := events[e].scope.command;
    0 < c <= |rows| && e + 1 == if events[e].isPre then rows[c - 1].preId else rows[c - 1].postId
  }

  /** Row `i` is in its place; the last one answers to the failure when a refusal is allowed. */
  predicate RowPlaced(events: seq<Event>, allowTerminal: bool, rows: seq<Row>, i: nat)
    requires i < |rows|
  {
    RowAt(events, i, rows[i], allowTerminal && i == |rows| - 1)
  }

  /** One row per step command, in order, with every sample in its place; when the run may end in
      a refusal, one more row, which answers to the only failure. */
  ghost predicate RowsRead(events: seq<Event>, allowTerminal: bool, rows: seq<Row>, failure: Option<nat>) {
    && |rows| > 0
    && (forall i {:trigger RowPlaced(events, allowTerminal, rows, i)} | 0 <= i < |rows| ::
          RowPlaced(events, allowTerminal, rows, i))
    && (forall i, j | 0 <= i < j < |rows| :: rows[i].preId < rows[j].preId)
    && (forall e {:trigger Belongs(events, rows, e)} | 0 <= e < |events| && events[e].Sample? ::
          Belongs(events, rows, e))
    && |CommandIds(events)| == |rows| - (if allowTerminal then 1 else 0)
    && failure == (if allowTerminal then Some(rows[|rows| - 1].producer) else None)
    && FailureIds(events) == (if allowTerminal then [rows[|rows| - 1].producer] else [])
  }

  // ---------------------------------------------------------------- views

  /** The projection says what its row shows. */
  predicate ViewFits(row: Row, view: Projection, session: string) {
    && view.scope == row.scope && RawHandshake(row, view.Kind())
    && (view.Kind() != Consumed ==> view.native == row.pre)
    && view.key.testcase == session && view.key.sequence > 0
  }

  /** Event `e` is a projection of the handshake in row `i`. */
  predicate ViewOfRow(events: seq<Event>, rows: seq<Row>, session: string, e: nat, i: nat)
    requires e < |events| && events[e].View? && i < |rows|
  {
    rows[i].preId == events[e].producer <= e && ViewFits(rows[i], events[e].view, session)
  }

  /** Two projections of one kind show different handshakes of different transactions. */
  predicate ViewsApart(a: Event, b: Event)
    requires a.View? && b.View?
  {
    a.view.Kind() == b.view.Kind() ==> a.producer != b.producer && a.view.key != b.view.key
  }

  ghost predicate ViewsBind(events: seq<Event>, rows: seq<Row>, session: string) {
    && (forall e | 0 <= e < |events| && events[e].View? ::
          exists i | 0 <= i < |rows| :: ViewOfRow(events, rows, session, e, i))
    && (forall d, e | 0 <= d < e < |events| && events[d].View? && events[e].View? ::
          ViewsApart(events[d], events[e]))
  }

  /** The projection is filed under its row and kind. */
  ghost predicate HasView(rows: seq<Row>, views: map<(nat, Kind), Projection>, e: Event)
    requires e.View?
  {
    exists i | 0 <= i < |rows| ::
      rows[i].preId == e.producer && (i, e.view.Kind()) in views && views[(i, e.view.Kind())] == e.view
  }

  /** What is filed is one of the first `n` events. */
  ghost predicate IsView(events: seq<Event>, n: nat, preId: nat, kind: Kind, view: Projection) {
    exists e | 0 <= e < n && e < |events| && events[e].View? ::
      events[e].producer == preId && events[e].view == view && view.Kind() == kind
  }

  /** The views are those of the first `n` events, no more and no fewer. */
  ghost predicate ViewsRead(events: seq<Event>, n: nat, rows: seq<Row>, views: map<(nat, Kind), Projection>) {
    && (forall e | 0 <= e < n && e < |events| && events[e].View? :: HasView(rows, views, events[e]))
    && (forall i, kind | (i, kind) in views :: i < |rows| && IsView(events, n, rows[i].preId, kind, views[(i, kind)]))
  }

  // ---------------------------------------------------------------- services

  predicate InMemory(s: Service) { s.key.channel == "memory" }

  /** A memory service, or the one poisoned write of a run that may end in a refusal. */
  predicate ServiceOk(s: Service, session: string, allowTerminal: bool) {
    && s.key.testcase == session && s.key.sequence > 0
    && (InMemory(s) || (allowTerminal && s.MemoryWrite? && s.key.channel == "native-source-poison"))
  }

  predicate AcceptanceOk(m: Acceptance, session: string) {
    m.key.testcase == session && m.key.sequence > 0 && m.key.channel == "memory"
  }

  function PoisonKeys(events: seq<Event>, n: nat): set<Key>
    requires n <= |events|
  {
    set e | 0 <= e < n && events[e].Served? && !InMemory(events[e].service) :: events[e].service.key
  }

  ghost predicate ServicesOk(events: seq<Event>, session: string, allowTerminal: bool) {
    && (forall e | 0 <= e < |events| && events[e].Served? :: ServiceOk(events[e].service, session, allowTerminal))
    && (forall e | 0 <= e < |events| && events[e].DeviceAccepted? :: AcceptanceOk(events[e].acceptance, session))
    && (forall d, e | 0 <= d < e < |events| && events[d].Served? && events[e].Served? ::
          events[d].service.key != events[e].service.key)
    && (forall d, e | 0 <= d < e < |events| && events[d].DeviceAccepted? && events[e].DeviceAccepted? ::
          events[d].acceptance.key != events[e].acceptance.key)
    && |PoisonKeys(events, |events|)| == (if allowTerminal then 1 else 0)
  }

  /** Event `e` is the memory service `s`, which is known by that event's id. */
  predicate IsService(events: seq<Event>, e: nat, s: Service) {
    e < |events| && events[e].Served? && InMemory(events[e].service) && s == events[e].service.(id := e + 1)
  }

  predicate IsAcceptance(events: seq<Event>, e: nat, m: Acceptance) {
    e < |events| && events[e].DeviceAccepted? && m == events[e].acceptance.(id := e + 1)
  }

  /** Services and acceptances are those of the first `n` events, by transaction. */
  ghost predicate ServicesRead(events: seq<Event>, n: nat, services: map<Key, Service>) {
    && (forall e | 0 <= e < n && e < |events| && events[e].Served? && InMemory(events[e].service) ::
          events[e].service.key in services && IsService(events, e, services[events[e].service.key]))
    && (forall key | key in services ::
          services[key].key == key && exists e | 0 <= e < n :: IsService(events, e, services[key]))
  }

  ghost predicate AcceptancesRead(events: seq<Event>, n: nat, acceptances: map<Key, Acceptance>) {
    && (forall e | 0 <= e < n && e < |events| && events[e].DeviceAccepted? ::
          events[e].acceptance.key in acceptances && IsAcceptance(events, e, acceptances[events[e].acceptance.key]))
    && (forall key | key in acceptances ::
          acceptances[key].key == key && exists e | 0 <= e < n :: IsAcceptance(events, e, acceptances[key]))
  }

  // ---------------------------------------------------------------- the rest

  /** The event with this id. */
  function EventOf(events: seq<Event>, id: nat): Event
    requires 0 < id <= |events|
  {
    events[id - 1]
  }

  function CommandOutputs(events: seq<Event>): map<nat, Outputs> {
    map id: nat | 0 < id <= |events| && EventOf(events, id).Command? :: EventOf(events, id).outputs
  }

  function ComponentNames(events: seq<Event>): map<nat, string> {
    map id: nat | 0 < id <= |events| :: if EventOf(events, id).Other? then EventOf(events, id).component else "cpu"
  }

  function CompletionEvents(events: seq<Event>): seq<(Key, nat)> {
    if events == [] then []
    else
      var rest := CompletionEvents(events[..|events| - 1]);
      match events[|events| - 1]
      case InstructionDone(key, producer) => rest + [(key, producer)]
      case _ => rest
  }

  // ---------------------------------------------------------------- the records of a journal

  /** How the auditor was called. */
  datatype Call = Call(faults: seq<Fault>, maxWait: nat, allowTerminal: bool, session: string)

  ghost predicate Reads(events: seq<Event>, call: Call, r: Records) {
    && RowsRead(events, call.allowTerminal, r.rows, r.failure)
    && ServicesOk(events, call.session, call.allowTerminal)
    && ServicesRead(events, |events|, r.services) && AcceptancesRead(events, |events|, r.acceptances)
    && ViewsBind(events, r.rows, call.session) && ViewsRead(events, |events|, r.rows, r.views)
    && IndexOk(r.views, Accepted, r.accepted) && IndexOk(r.views, Consumed, r.responses)
    && IndexOk(r.views, Completed, r.completions)
    && r.commands == CommandOutputs(events) && r.components == ComponentNames(events)
    && r.retired == CompletionEvents(events)
    && r.maxWait == call.maxWait && r.faults == call.faults
  }

  // ---------------------------------------------------------------- the lists of ids

  predicate IsCommand(events: seq<Event>, id: nat) { 0 < id <= |events| && events[id - 1].Command? }

  /** The ids of the step commands, all of them and nothing else, in increasing order. */
  ghost predicate ListsCommands(events: seq<Event>, ids: seq<nat>) {
    && Increasing(ids)
    && forall id: nat {:trigger IsCommand(events, id)} {:trigger id in ids} :: IsCommand(events, id) <==> id in ids
  }

  lemma CommandIdsStep(events: seq<Event>, before: seq<Event>, ids: seq<nat>)
    requires events != [] && before == events[..|events| - 1] && ListsCommands(before, ids)
    ensures ListsCommands(events, ids + if events[|before|].Command? then [|events|] else [])
  {
    var more := ids + if events[|before|].Command? then [|events|] else [];
    forall id: nat ensures IsCommand(events, id) <==> id in more {
      assert IsCommand(events, id) <==> IsCommand(before, id) || (id == |events| && events[|before|].Command?);
    }
    forall i, j | 0 <= i < j < |more| ensures more[i] < more[j] { assert ids[i] in ids && IsCommand(before, ids[i]); }
  }

  lemma {:induction false} CommandIdsList(events: seq<Event>)
    ensures ListsCommands(events, CommandIds(events))
  {
    if events != [] {
      var before := events[..|events| - 1];
      CommandIdsList(before);
      CommandIdsStep(events, before, CommandIds(before));
    }
  }

  lemma OneListing(events: seq<Event>, a: seq<nat>, b: seq<nat>)
    requires ListsCommands(events, a) && ListsCommands(events, b)
    ensures a == b
  {
    forall i | 0 <= i < |a| ensures a[i] in b { assert a[i] in a && IsCommand(events, a[i]); }
    forall i | 0 <= i < |b| ensures b[i] in a { assert b[i] in b && IsCommand(events, b[i]); }
    SameIncreasing(a, b);
  }

  /** There is only one such list. */
  lemma CommandIdsAre(events: seq<Event>, ids: seq<nat>)
    ensures CommandIds(events) == ids <==> ListsCommands(events, ids)
  {
    CommandIdsList(events);
    if ListsCommands(events, ids) { OneListing(events, CommandIds(events), ids); }
  }

  lemma {:induction false} NoFailures(events: seq<Event>)
    requires forall e | 0 <= e < |events| :: !events[e].Failure?
    ensures FailureIds(events) == []
  {
    if events != [] { NoFailures(events[..|events| - 1]); }
  }

  lemma {:induction false} NoCompletions(events: seq<Event>)
    requires forall e | 0 <= e < |events| :: !events[e].InstructionDone?
    ensures CompletionEvents(events) == []
  {
    if events != [] { NoCompletions(events[..|events| - 1]); }
  }

  // ---------------------------------------------------------------- there is only one reading

  lemma RowOfRead(events: seq<Event>, allowTerminal: bool, rows: seq<Row>, failure: Option<nat>, i: nat)
    requires RowsRead(events, allowTerminal, rows, failure) && i < |rows|
    ensures RowSamples(events, i, rows[i])
    ensures ProducerOk(events, i, rows[i].producer, allowTerminal && i == |rows| - 1)
  {
    assert RowPlaced(events, allowTerminal, rows, i);
  }

  lemma SameSamples(events: seq<Event>, i: nat, row: Row, others: seq<Row>)
    requires i < |others| && RowSamples(events, i, row) && RowSamples(events, i, others[i])
    requires forall e {:trigger Belongs(events, others, e)} | 0 <= e < |events| && events[e].Sample? ::
               Belongs(events, others, e)
    ensures row == others[i]
  {
    assert Belongs(events, others, row.preId - 1) && Belongs(events, others, row.postId - 1);
  }

  lemma CountTwice(events: seq<Event>, allowTerminal: bool, rows: seq<Row>, failure: Option<nat>,
                   others: seq<Row>, other: Option<nat>)
    requires RowsRead(events, allowTerminal, rows, failure) && RowsRead(events, allowTerminal, others, other)
    ensures |rows| == |others|
  {
  }

  lemma RowsTwice(events: seq<Event>, allowTerminal: bool, rows: seq<Row>, failure: Option<nat>,
                  others: seq<Row>, other: Option<nat>)
    requires RowsRead(events, allowTerminal, rows, failure) && RowsRead(events, allowTerminal, others, other)
    ensures rows == others && failure == other
  {
    CountTwice(events, allowTerminal, rows, failure, others, other);
    forall i | 0 <= i < |rows| ensures rows[i] == others[i] {
      RowOfRead(events, allowTerminal, rows, failure, i);
      RowOfRead(events, allowTerminal, others, other, i);
      SameSamples(events, i, rows[i], others);
    }
  }

  lemma ViewTwice(events: seq<Event>, rows: seq<Row>, views: map<(nat, Kind), Projection>,
                  others: map<(nat, Kind), Projection>, i: nat, kind: Kind)
    requires forall i, j | 0 <= i < j < |rows| :: rows[i].preId != rows[j].preId
    requires ViewsRead(events, |events|, rows, views) && ViewsRead(events, |events|, rows, others)
    requires (i, kind) in views
    ensures (i, kind) in others && others[(i, kind)] == views[(i, kind)]
  {
    assert IsView(events, |events|, rows[i].preId, kind, views[(i, kind)]);
    var e :| 0 <= e < |events| && events[e].View? && events[e].producer == rows[i].preId
             && events[e].view == views[(i, kind)];
    assert HasView(rows, others, events[e]);
  }

  lemma ViewsTwice(events: seq<Event>, rows: seq<Row>, views: map<(nat, Kind), Projection>,
                   others: map<(nat, Kind), Projection>)
    requires forall i, j | 0 <= i < j < |rows| :: rows[i].preId != rows[j].preId
    requires ViewsRead(events, |events|, rows, views) && ViewsRead(events, |events|, rows, others)
    ensures views == others
  {
    forall v | v in views ensures v in others && others[v] == views[v] {
      ViewTwice(events, rows, views, others, v.0, v.1);
    }
    forall v | v in others ensures v in views { ViewTwice(events, rows, others, views, v.0, v.1); }
  }

  lemma IndexTwice(views: map<(nat, Kind), Projection>, kind: Kind, index: map<Key, nat>, other: map<Key, nat>)
    requires IndexOk(views, kind, index) && IndexOk(views, kind, other)
    ensures index == other
  {
  }

  lemma ServicesTwice(events: seq<Event>, services: map<Key, Service>, others: map<Key, Service>)
    requires ServicesRead(events, |events|, services) && ServicesRead(events, |events|, others)
    ensures services == others
  {
    ServicesIn(events, services, others);
    ServicesIn(events, others, services);
    assert services.Keys == others.Keys;
  }

  lemma ServicesIn(events: seq<Event>, services: map<Key, Service>, others: map<Key, Service>)
    requires ServicesRead(events, |events|, services) && ServicesRead(events, |events|, others)
    ensures forall key | key in services :: key in others && others[key] == services[key]
  {
    forall key | key in services ensures key in others && others[key] == services[key] {
      var e :| 0 <= e < |events| && IsService(events, e, services[key]);
      assert events[e].service.key in others && IsService(events, e, others[events[e].service.key]);
    }
  }

  lemma AcceptancesIn(events: seq<Event>, acceptances: map<Key, Acceptance>, others: map<Key, Acceptance>)
    requires AcceptancesRead(events, |events|, acceptances) && AcceptancesRead(events, |events|, others)
    ensures forall key | key in acceptances :: key in others && others[key] == acceptances[key]
  {
    forall key | key in acceptances ensures key in others && others[key] == acceptances[key] {
      var e :| 0 <= e < |events| && IsAcceptance(events, e, acceptances[key]);
      assert events[e].acceptance.key in others && IsAcceptance(events, e, others[events[e].acceptance.key]);
    }
  }

  /** A journal has at most one reading. */
  lemma OneReading(events: seq<Event>, call: Call, r: Records, s: Records)
    requires Reads(events, call, r) && Reads(events, call, s)
    ensures r == s
  {
    RowsTwice(events, call.allowTerminal, r.rows, r.failure, s.rows, s.failure);
    ViewsTwice(events, r.rows, r.views, s.views);
    IndexTwice(r.views, Accepted, r.accepted, s.accepted);
    IndexTwice(r.views, Consumed, r.responses, s.responses);
    IndexTwice(r.views, Completed, r.completions, s.completions);
    ServicesTwice(events, r.services, s.services);
    AcceptancesIn(events, r.acceptances, s.acceptances);
    AcceptancesIn(events, s.acceptances, r.acceptances);
  }

  /** What is read has the shape that both passes rely on. */
  lemma ReadsIsOk(events: seq<Event>, call: Call, r: Records)
    requires Reads(events, call, r)
    ensures RecordsOk(r)
  {
    RowsReadOk(events, call.allowTerminal, r.rows, r.failure);
    forall i, kind | (i, kind) in r.views
      ensures i < |r.rows| && r.views[(i, kind)].Kind() == kind && ViewFits(r.rows[i], r.views[(i, kind)], call.session)
    {
      ViewIsBound(events, r.rows, call.session, r.views, i, kind);
    }
  }

  lemma ProducersDiffer(events: seq<Event>, i: nat, p: nat, j: nat, q: nat)
    requires ProducerOk(events, i, p, false) && ProducerOk(events, j, q, true)
    ensures p != q
  {
    assert events[p - 1].Command?;
  }

  lemma RowsReadOk(events: seq<Event>, allowTerminal: bool, rows: seq<Row>, failure: Option<nat>)
    requires RowsRead(events, allowTerminal, rows, failure)
    ensures RowsOk(rows, failure)
  {
    forall i | 0 <= i < |rows|
      ensures rows[i].scope == Scope(i + 1, i + 1) && rows[i].producer < rows[i].preId < rows[i].postId
      ensures allowTerminal && i < |rows| - 1 ==> rows[i].producer != rows[|rows| - 1].producer
    {
      RowShape(events, allowTerminal, rows, failure, i);
    }
  }

  lemma RowScope(events: seq<Event>, allowTerminal: bool, rows: seq<Row>, failure: Option<nat>, i: nat)
    requires RowsRead(events, allowTerminal, rows, failure) && i < |rows|
    ensures rows[i].scope == Scope(i + 1, i + 1) && rows[i].producer < rows[i].preId < rows[i].postId
  {
    RowOfRead(events, allowTerminal, rows, failure, i);
  }

  lemma LastProducer(events: seq<Event>, rows: seq<Row>, failure: Option<nat>, i: nat)
    requires RowsRead(events, true, rows, failure) && i < |rows| - 1
    ensures rows[i].producer != rows[|rows| - 1].producer
  {
    RowOfRead(events, true, rows, failure, i);
    RowOfRead(events, true, rows, failure, |rows| - 1);
    ProducersDiffer(events, i, rows[i].producer, |rows| - 1, rows[|rows| - 1].producer);
  }

  lemma RowShape(events: seq<Event>, allowTerminal: bool, rows: seq<Row>, failure: Option<nat>, i: nat)
    requires RowsRead(events, allowTerminal, rows, failure) && i < |rows|
    ensures rows[i].scope == Scope(i + 1, i + 1) && rows[i].producer < rows[i].preId < rows[i].postId
    ensures allowTerminal && i < |rows| - 1 ==> rows[i].producer != rows[|rows| - 1].producer
  {
    RowScope(events, allowTerminal, rows, failure, i);
    if allowTerminal && i < |rows| - 1 { LastProducer(events, rows, failure, i); }
  }

  lemma ViewIsBound(events: seq<Event>, rows: seq<Row>, session: string, views: map<(nat, Kind), Projection>,
                    i: nat, kind: Kind)
    requires ViewsBind(events, rows, session) && ViewsRead(events, |events|, rows, views) && (i, kind) in views
    requires forall i, j | 0 <= i < j < |rows| :: rows[i].preId < rows[j].preId
    ensures i < |rows| && views[(i, kind)].Kind() == kind && ViewFits(rows[i], views[(i, kind)], session)
  {
    assert IsView(events, |events|, rows[i].preId, kind, views[(i, kind)]);
    var e :| 0 <= e < |events| && events[e].View? && events[e].producer == rows[i].preId
             && events[e].view == views[(i, kind)];
    var j :| 0 <= j < |rows| && ViewOfRow(events, rows, session, e, j);
  }
}
