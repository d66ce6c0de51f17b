/** The second pass of the trace audit: it forgets the replay and rebuilds every transfer from
    the projections, looking the answer and the completion up by transaction. */
module SecondPass {
  import opened Wrappers
  import opened TraceJournal

  /** One rebuilt transfer; `completed` is false for the refused one. */
  datatype Join = Join(key: Key, service: Service, accept: nat, response: nat, end: nat, completed: bool,
                       actual: Word, delivered: Word, faults: seq<nat>)

  // ---------------------------------------------------------------- per-transfer requirements

  predicate KeyChecks(key: Key, n: nat) {
    key.component == "cpu" && key.epoch == 0 && key.channel == "memory" && key.sequence == n
  }

  predicate RequestChecks(row: Row) {
    && row.pre.valid && !row.pre.ready
    && AcceptedNow(row)
    && row.backend.reqAddr == row.pre.addr
    && row.backend.reqWrite == (row.pre.wstrb != 0)
    && row.backend.reqBe == (if row.pre.wstrb != 0 then row.pre.wstrb else 15)
  }

  /** The device saw the command the CPU issued, and its delivery follows the acceptance. */
  predicate MmioChecks(r: Records, row: Row, key: Key, s: Service)
    requires s.MmioDelivery?
  {
    && key in r.acceptances
    && var m := r.acceptances[key];
    && m.key == s.key == key
    && m.producer == row.producer && m.id > row.producer
    && m.address == s.address == row.pre.addr
    && m.offset == s.offset && m.beatBytes == 4 == s.beatBytes && m.write == s.write
    && m.byteEnable == s.byteEnable == row.backend.reqBe
    && m.writeValue == s.writeValue && m.device == s.device && m.device != ""
    && (if m.write then row.pre.wstrb == m.byteEnable else row.pre.wstrb == 0)
    && (if m.write then m.writeValue == Some(row.pre.wdata) else m.writeValue == None)
    && (if m.write then s.readValue == None else s.readValue.Some?)
    && s.id > m.id
    && s.producer in r.components && r.components[s.producer] == m.device
  }

  /** The service row performed the operation the request asked for. */
  predicate ServiceChecks(r: Records, row: Row, key: Key, s: Service) {
    && s.address == row.pre.addr
    && s.IsWrite() == (row.pre.wstrb != 0)
    && (row.pre.wstrb != 0 ==>
          row.backend.reqWdata == row.pre.wdata
          && s.Written() == Some(row.pre.wdata) && s.Strobes() == Some(row.pre.wstrb))
    && (if s.MmioDelivery? then MmioChecks(r, row, key, s)
        else s.width == 4 && s.id > row.producer && s.producer == row.producer)
  }

  predicate ResponseChecks(r: Records, taken: Row, heard: Row, key: Key, s: Service, delivered: Word, view: Projection)
    requires view.ConsumedView?
  {
    && heard.preId > s.id && heard.preId > taken.preId
    && heard.pre.valid && !heard.pre.ready
    && ConsumedNow(heard) && !heard.backend.rspError
    && heard.post.ready && heard.post.rdata == heard.backend.rspRdata
    && s.id < heard.producer < heard.preId && heard.postId > heard.preId
    && heard.producer in r.commands
    && r.commands[heard.producer] == Outputs(1, key.sequence, key.epoch, delivered)
    && heard.backend.rspRdata == delivered && view.value == delivered && view.offerOnly
  }

  predicate CompletionChecks(taken: Row, heard: Row, done: Row, delivered: Word, view: Projection)
    requires view.CompletedView?
  {
    && done.preId > heard.preId && done.preId > heard.postId
    && CompletedNow(done)
    && done.pre.addr == taken.pre.addr && done.pre.wstrb == taken.pre.wstrb
    && done.pre.instruction == taken.pre.instruction && done.pre.rdata == delivered
    && done.scope.tick == heard.scope.tick + 1
    && view.acceptedScope == taken.scope && view.responseScope == heard.scope
  }

  predicate TerminalChecks(heard: Row, last: Row) {
    last.preId > heard.postId && last.scope.tick == heard.scope.tick + 1
  }

  /** Rebuild the `n`-th transfer from the view of its request at row `a`. */
  function JoinFor(r: Records, a: nat, n: nat): Option<Join>
    requires RecordsTyped(r) && (a, Accepted) in r.views
  {
    var key := r.views[(a, Accepted)].key;
    var taken := r.rows[a];
    if !KeyChecks(key, n) || !RequestChecks(taken) || key !in r.services then None
    else
      var s := r.services[key];
      if !ServiceChecks(r, taken, key, s) || key !in r.responses || Delivered(r.faults, s).None? then None
      else
        var p := r.responses[key];
        var delivered := Delivered(r.faults, s).value;
        var actual := ServiceResponse(s).value;
        if !ResponseChecks(r, taken, r.rows[p], key, s, delivered, r.views[(p, Consumed)]) then None
        else if key in r.completions then
          var c := r.completions[key];
          if CompletionChecks(taken, r.rows[p], r.rows[c], delivered, r.views[(c, Completed)])
          then Some(Join(key, s, a, p, c, true, actual, delivered, FaultsFor(r.faults, key))) else None
        else if r.failure.Some? && TerminalChecks(r.rows[p], r.rows[|r.rows| - 1])
        then Some(Join(key, s, a, p, |r.rows| - 1, false, actual, delivered, FaultsFor(r.faults, key)))
        else None
  }

  /** The indexes point at rows and at views of the right shape. */
  predicate RecordsTyped(r: Records) {
    && (forall v | v in r.views.Keys :: v.0 < |r.rows| && r.views[v].Kind() == v.1)
    && (forall key | key in r.responses :: (r.responses[key], Consumed) in r.views)
    && (forall key | key in r.completions :: (r.completions[key], Completed) in r.views)
    && (r.failure.Some? ==> |r.rows| > 0)
  }

  // ---------------------------------------------------------------- the whole pass

  /** The rows of the accepted requests in event order.  Row order is event order, so this is
      the token map sorted by the id of each request's PRE sample. */
  function Requests(r: Records, n: nat): (rows: seq<nat>)
    requires n <= |r.rows|
    ensures forall j | 0 <= j < |rows| :: rows[j] < n && (rows[j], Accepted) in r.views
    ensures forall i | 0 <= i < n && (i, Accepted) in r.views :: i in rows
    ensures forall j, k | 0 <= j < k < |rows| :: rows[j] < rows[k]
  {
    if n == 0 then []
    else if (n - 1, Accepted) in r.views then Requests(r, n - 1) + [n - 1]
    else Requests(r, n - 1)
  }

  predicate FaultUsed(joins: seq<Join>, n: nat) { exists j | 0 <= j < |joins| :: n in joins[j].faults }

  function JoinKeys(joins: seq<Join>): set<Key> { set j | 0 <= j < |joins| :: joins[j].key }

  function DoneKeys(joins: seq<Join>): set<Key> { set j | 0 <= j < |joins| && joins[j].completed :: joins[j].key }

  /** Nothing is left over: services, acceptances, answers, completions and faults are all used. */
  predicate NothingLeft(r: Records, joins: seq<Join>) {
    && JoinKeys(joins) == r.services.Keys
    && r.acceptances.Keys == (set key | key in r.services && r.services[key].MmioDelivery?)
    && JoinKeys(joins) == r.responses.Keys && DoneKeys(joins) == r.completions.Keys
    && (forall n | 0 <= n < |r.faults| :: FaultUsed(joins, n))
    && |r.accepted| == |r.responses| == |r.completions| + (if r.failure.Some? then 1 else 0)
  }

  /** Join `k` is what request `k`, of the rows in `rows`, rebuilds to. */
  predicate JoinAt(r: Records, rows: seq<nat>, joins: seq<Join>, k: nat)
    requires RecordsTyped(r) && k < |rows| && k < |joins|
  {
    (rows[k], Accepted) in r.views && JoinFor(r, rows[k], k + 1) == Some(joins[k])
  }

  ghost predicate JoinsFit(r: Records, rows: seq<nat>, joins: seq<Join>)
    requires RecordsTyped(r)
  {
    |joins| <= |rows| && forall k {:trigger JoinAt(r, rows, joins, k)} | 0 <= k < |joins| :: JoinAt(r, rows, joins, k)
  }

  /** Every request rebuilds, to these joins. */
  ghost predicate AllJoined(r: Records, joins: seq<Join>)
    requires RecordsTyped(r)
  {
    |joins| == |Requests(r, |r.rows|)| && JoinsFit(r, Requests(r, |r.rows|), joins)
  }

  ghost predicate SecondAccepts(r: Records)
    requires RecordsTyped(r)
  {
    exists joins :: AllJoined(r, joins) && NothingLeft(r, joins)
  }

  lemma OneMoreJoin(r: Records, rows: seq<nat>, joins: seq<Join>, next: Join)
    requires RecordsTyped(r) && JoinsFit(r, rows, joins) && |joins| < |rows| && (rows[|joins|], Accepted) in r.views
    requires JoinFor(r, rows[|joins|], |joins| + 1) == Some(next)
    ensures JoinsFit(r, rows, joins + [next])
  {
    var more := joins + [next];
    forall k | 0 <= k < |more| ensures JoinAt(r, rows, more, k) { assert k < |joins| ==> JoinAt(r, rows, joins, k); }
  }

  lemma JoinAtIs(r: Records, rows: seq<nat>, joins: seq<Join>, k: nat)
    requires RecordsTyped(r) && JoinsFit(r, rows, joins) && k < |joins|
    ensures (rows[k], Accepted) in r.views && JoinFor(r, rows[k], k + 1) == Some(joins[k])
  {
    assert JoinAt(r, rows, joins, k);
  }

  /** There is only one way to rebuild. */
  lemma OneJoining(r: Records, joins: seq<Join>, others: seq<Join>)
    requires RecordsTyped(r) && AllJoined(r, joins) && AllJoined(r, others)
    ensures joins == others
  {
    var rows := Requests(r, |r.rows|);
    forall k | 0 <= k < |joins| ensures joins[k] == others[k] {
      JoinAtIs(r, rows, joins, k);
      JoinAtIs(r, rows, others, k);
    }
  }

  /** A request that does not rebuild ends the pass. */
  lemma NotJoined(r: Records, rows: seq<nat>, k: nat)
    requires RecordsTyped(r) && rows == Requests(r, |r.rows|) && k < |rows| && JoinFor(r, rows[k], k + 1).None?
    ensures forall joins :: !AllJoined(r, joins)
  {
    forall joins | AllJoined(r, joins) ensures false { JoinAtIs(r, rows, joins, k); }
  }

  /** The pass: the requests in event order, one join each, stop at the first that fails. */
  method RebuildTransfers(r: Records) returns (joins: Option<seq<Join>>)
    requires RecordsTyped(r)
    ensures joins.Some? ==> AllJoined(r, joins.value)
    ensures joins.None? ==> forall js :: !AllJoined(r, js)
  {
    var ordered := Requests(r, |r.rows|);
    var built: seq<Join> := [];
    for k := 0 to |ordered|
      invariant |built| == k && JoinsFit(r, ordered, built)
    {
      var next := JoinFor(r, ordered[k], k + 1);
      if next.None? {
        NotJoined(r, ordered, k);
        return None;
      }
      OneMoreJoin(r, ordered, built, next.value);
      built := built + [next.value];
    }
    joins := Some(built);
  }

  /** The sweep between the passes: every raw handshake outside the refused row has a view. */
  predicate Swept(r: Records) {
    forall i | 0 <= i < |r.rows| ::
      && (AcceptedNow(r.rows[i]) ==> (i, Accepted) in r.views)
      && (ConsumedNow(r.rows[i]) ==> (i, Consumed) in r.views)
      && (CompletedNow(r.rows[i]) && !TerminalRow(r, i) ==> (i, Completed) in r.views)
  }
}
