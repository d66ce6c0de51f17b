/** The recorded event journal of one CPU run, and the joins both audit passes make on it.

    An event's id is its position in the journal plus one, which is what the auditor
    insists on before it reads anything else.  A transaction token is the canonical text of
    a transaction key; equal text means equal key, so the key itself is used as the token. */
module TraceJournal {
  import opened Wrappers

  type Word = w: nat | w < 0x1_0000_0000
  type Lanes = l: nat | l < 16

  /** One sample of the CPU's own ready/valid memory port. */
  datatype Native = Native(valid: bool, ready: bool, addr: Word, wdata: Word, wstrb: Lanes,
                           rdata: Word, instruction: bool)

  /** One sample of the memory backend behind that port. */
  datatype Backend = Backend(reqValid: bool, reqReady: bool, reqAddr: Word, reqWrite: bool,
                             reqWdata: Word, reqBe: Lanes, rspValid: bool, rspReady: bool,
                             rspRdata: Word, rspError: bool)

  datatype Scope = Scope(command: nat, tick: nat)

  datatype Key = Key(testcase: string, component: string, epoch: nat, channel: string, sequence: nat)

  /** The PRE and POST samples of one CPU clock. */
  datatype Row = Row(preId: nat, postId: nat, producer: nat, scope: Scope,
                     pre: Native, post: Native, backend: Backend)

  datatype Kind = Accepted | Consumed | Completed

  datatype SnapshotBody = SnapshotBody(memoryId: string, generation: nat, byteOffset: nat,
                                       data: seq<bv8>, versions: seq<nat>, writers: seq<nat>)

  datatype Snapshot = Snapshot(body: SnapshotBody, writerKinds: seq<string>, transaction: Key)

  datatype Projection =
    | AcceptedView(key: Key, scope: Scope, native: Native)
    | ConsumedView(key: Key, scope: Scope, value: Word, offerOnly: bool)
    | CompletedView(key: Key, scope: Scope, native: Native, acceptedScope: Scope,
                    responseScope: Scope, snapshot: Option<Snapshot>, instructionTransfer: bool)
  {
    function Kind(): Kind {
      match this
      case AcceptedView(_, _, _) => Accepted
      case ConsumedView(_, _, _, _) => Consumed
      case CompletedView(_, _, _, _, _, _, _) => Completed
    }
  }

  /** What the memory or a device really did for one transaction. */
  datatype Service =
    | MemoryRead(id: nat, producer: nat, key: Key, address: Word, width: nat, value: Word,
                 body: SnapshotBody, kinds: Option<seq<string>>)
    | MemoryWrite(id: nat, producer: nat, key: Key, address: Word, width: nat, value: Word, byteEnable: Lanes)
    | MmioDelivery(id: nat, producer: nat, key: Key, address: Word, offset: nat, beatBytes: nat,
                   write: bool, byteEnable: Lanes, writeValue: Option<Word>, readValue: Option<Word>,
                   device: string)
  {
    predicate IsWrite() { MemoryWrite? || (MmioDelivery? && write) }

    /** The written value: the `value` field, or `write_value` where there is none. */
    function Written(): Option<Word> {
      match this
      case MemoryRead(_, _, _, _, _, v, _, _) => Some(v)
      case MemoryWrite(_, _, _, _, _, v, _) => Some(v)
      case MmioDelivery(_, _, _, _, _, _, _, _, v, _, _) => v
    }

    function Strobes(): Option<Lanes> {
      match this
      case MemoryRead(_, _, _, _, _, _, _, _) => None
      case MemoryWrite(_, _, _, _, _, _, be) => Some(be)
      case MmioDelivery(_, _, _, _, _, _, _, be, _, _, _) => Some(be)
    }
  }

  datatype Acceptance = Acceptance(id: nat, producer: nat, key: Key, address: Word, offset: nat,
                                   beatBytes: nat, write: bool, byteEnable: Lanes,
                                   writeValue: Option<Word>, device: string)

  datatype Fault = Fault(key: Key, address: Word, actual: seq<int>, delivered: seq<int>)

  /** The response side of one CPU step command. */
  datatype Outputs = Outputs(rspConsumed: nat, rspSequence: nat, rspEpoch: nat, rspRdata: nat)

  /** Everything the passes look things up in once the journal has been collected.
      `views` is keyed by row and kind; the three maps give the row of each token's view. */
  datatype Records = Records(
    rows: seq<Row>,
    maxWait: nat,
    failure: Option<nat>,            // event id of the terminal harness failure, when one is allowed
    commands: map<nat, Outputs>,     // CPU step commands by event id
    components: map<nat, string>,    // component of every event that names one
    views: map<(nat, Kind), Projection>,
    accepted: map<Key, nat>,
    responses: map<Key, nat>,
    completions: map<Key, nat>,
    services: map<Key, Service>,
    acceptances: map<Key, Acceptance>,
    retired: seq<(Key, nat)>,        // transaction and producer of each instruction bus completion event
    faults: seq<Fault>)

  // ---------------------------------------------------------------- raw handshakes

  predicate AcceptedNow(row: Row) { row.backend.reqValid && row.backend.reqReady }

  predicate ConsumedNow(row: Row) { row.backend.rspValid && row.backend.rspReady }

  predicate CompletedNow(row: Row) { row.pre.valid && row.pre.ready }

  /** `actual` still offers the request `saved`. */
  predicate Stable(actual: Native, saved: Native) {
    && actual.valid
    && actual.addr == saved.addr && actual.wstrb == saved.wstrb && actual.instruction == saved.instruction
    && (saved.wstrb == 0 || actual.wdata == saved.wdata)
  }

  predicate TerminalRow(r: Records, i: nat)
    requires i < |r.rows|
  {
    r.failure.Some? && r.rows[i].producer == r.failure.value
  }

  function WaitBound(r: Records): nat { 2 * r.maxWait + 4 }

  // ---------------------------------------------------------------- response values

  function FlipLow(w: Word): (f: Word)
    ensures f != w && f / 2 == w / 2
  {
    if w % 2 == 0 then w + 1 else w - 1
  }

  function LittleEndian(data: seq<bv8>): nat {
    if data == [] then 0 else (data[0] as nat) + 256 * LittleEndian(data[1..])
  }

  /** The value a service row answers with, or nothing where the row is malformed. */
  function ServiceResponse(s: Service): Option<Word> {
    match s
    case MemoryRead(_, _, _, _, width, value, body, _) =>
      if |body.data| == width == 4 && LittleEndian(body.data) == value then Some(value) else None
    case MemoryWrite(_, _, _, _, _, _, _) => Some(0)
    case MmioDelivery(_, _, _, _, _, _, write, _, _, readValue, _) =>
      if write then Some(0) else readValue
  }

  /** Positions of the controlled faults aimed at `key`. */
  function FaultsFor(faults: seq<Fault>, key: Key): (f: seq<nat>)
    ensures forall j | 0 <= j < |f| :: f[j] < |faults| && faults[f[j]].key == key
    ensures forall n: nat | n < |faults| && faults[n].key == key :: n in f
  {
    if faults == [] then []
    else
      var rest := FaultsFor(faults[..|faults| - 1], key);
      if faults[|faults| - 1].key == key then rest + [|faults| - 1] else rest
  }

  const FaultAddress: Word := 0x4000000c

  /** What the CPU must have been given: the service's answer, low bit flipped by the one
      controlled fault that names the transaction. */
  function Delivered(faults: seq<Fault>, s: Service): Option<Word> {
    var actual :- ServiceResponse(s);
    var hits := FaultsFor(faults, s.key);
    if |hits| == 0 then Some(actual)
    else if |hits| > 1 then None
    else
      var fault := faults[hits[0]];
      if s.MmioDelivery? && !s.write && s.address == fault.address == FaultAddress
         && fault.actual == [actual as int, 0] && fault.delivered == [FlipLow(actual) as int, 0]
      then Some(FlipLow(actual)) else None
  }

  // ---------------------------------------------------------------- joins of the first pass

  predicate BackendRequest(row: Row) {
    && row.pre.valid
    && row.backend.reqAddr == row.pre.addr
    && row.backend.reqWrite == (row.pre.wstrb != 0)
    && row.backend.reqBe == (if row.pre.wstrb != 0 then row.pre.wstrb else 15)
    && (row.pre.wstrb == 0 || row.backend.reqWdata == row.pre.wdata)
    && !(row.pre.instruction && row.pre.wstrb != 0)
  }

  /** The `n`-th request is taken at row `a`. */
  predicate AcceptJoin(r: Records, a: nat, n: nat)
    requires a < |r.rows|
  {
    && BackendRequest(r.rows[a])
    && (a, Accepted) in r.views
    && var key := r.views[(a, Accepted)].key;
    && key.sequence == n && key.epoch == 0
    && key in r.services && r.services[key].id > r.rows[a].producer
  }

  /** The answer to the request taken at row `a` reaches the CPU at row `p`. */
  predicate ResponseJoin(r: Records, a: nat, p: nat)
    requires a < |r.rows| && p < |r.rows|
    requires (a, Accepted) in r.views && r.views[(a, Accepted)].key in r.services
  {
    var row := r.rows[p];
    var key := r.views[(a, Accepted)].key;
    var service := r.services[key];
    && !row.pre.ready && !row.backend.rspError
    && row.post.ready && Stable(row.post, r.rows[a].pre) && row.post.rdata == row.backend.rspRdata
    && service.id < row.preId
    && Delivered(r.faults, service).Some?
    && var delivered := Delivered(r.faults, service).value;
    && (p, Consumed) in r.views && r.views[(p, Consumed)].ConsumedView?
    && service.id < row.producer < row.preId
    && row.producer in r.commands
    && r.commands[row.producer] == Outputs(1, key.sequence, key.epoch, delivered)
    && r.views[(p, Consumed)].value == delivered && r.views[(p, Consumed)].offerOnly
    && row.backend.rspRdata == delivered
  }

  predicate SnapshotJoin(view: Projection, service: Service, key: Key, rdata: Word)
    requires view.CompletedView?
  {
    match service
    case MemoryRead(_, _, _, _, _, _, body, kinds) =>
      && view.snapshot.Some?
      && var s := view.snapshot.value;
      && s.body == body
      && |s.writerKinds| == 4 && (forall j | 0 <= j < 4 :: s.writerKinds[j] != "")
      && (kinds.Some? ==> kinds.value == s.writerKinds)
      && s.transaction == key && LittleEndian(s.body.data) == rdata
    case _ => view.snapshot.None?
  }

  /** The native handshake at row `c` completes the request taken at `a`, answered at `p`. */
  predicate CompletionJoin(r: Records, a: nat, p: nat, c: nat)
    requires a < |r.rows| && p < |r.rows| && c < |r.rows|
    requires (a, Accepted) in r.views && r.views[(a, Accepted)].key in r.services
  {
    var row := r.rows[c];
    var key := r.views[(a, Accepted)].key;
    && (c, Completed) in r.views && r.views[(c, Completed)].CompletedView?
    && var view := r.views[(c, Completed)];
    && view.acceptedScope == r.rows[a].scope && view.responseScope == r.rows[p].scope
    && view.instructionTransfer == row.pre.instruction
    && SnapshotJoin(view, r.services[key], key, row.pre.rdata)
  }

  /** The native handshake at row `c` is the one the run refused. */
  predicate RefusalJoin(r: Records, a: nat, c: nat)
    requires a < |r.rows| && c < |r.rows|
    requires (a, Accepted) in r.views && r.views[(a, Accepted)].key in r.services
  {
    && c == |r.rows| - 1
    && r.services[r.views[(a, Accepted)].key].MemoryRead?
    && r.rows[c].pre.instruction && r.rows[c].pre.wstrb == 0
    && (c, Completed) !in r.views
    && (forall n | 0 <= n < |r.retired| ::
          r.retired[n].0 != r.views[(a, Accepted)].key && r.retired[n].1 != r.rows[c].preId)
  }

  // ---------------------------------------------------------------- what collection guarantees

  /** The row table: one row per tick from 1, ids rising, every producer known. */
  ghost predicate RowsOk(rows: seq<Row>, failure: Option<nat>) {
    && (forall i | 0 <= i < |rows| ::
          && rows[i].scope == Scope(i + 1, i + 1)
          && rows[i].producer < rows[i].preId < rows[i].postId)
    && (forall i, j | 0 <= i < j < |rows| :: rows[i].preId < rows[j].preId)
    && (failure.Some? ==> |rows| > 0 && rows[|rows| - 1].producer == failure.value)
    && (failure.Some? ==> forall i | 0 <= i < |rows| - 1 :: rows[i].producer != failure.value)
  }

  predicate RawHandshake(row: Row, kind: Kind) {
    match kind
    case Accepted => row.pre.valid && !row.pre.ready && AcceptedNow(row)
    case Consumed => ConsumedNow(row)
    case Completed => CompletedNow(row)
  }

  ghost predicate ViewsOk(rows: seq<Row>, views: map<(nat, Kind), Projection>) {
    forall i, kind | (i, kind) in views ::
      && i < |rows|
      && views[(i, kind)].Kind() == kind
      && views[(i, kind)].scope == rows[i].scope
      && RawHandshake(rows[i], kind)
      && (kind != Consumed ==> views[(i, kind)].native == rows[i].pre)
  }

  /** `index` gives the row of every view of one kind, by its transaction. */
  ghost predicate IndexOk(views: map<(nat, Kind), Projection>, kind: Kind, index: map<Key, nat>) {
    && (forall key | key in index :: (index[key], kind) in views && views[(index[key], kind)].key == key)
    && (forall i | (i, kind) in views :: views[(i, kind)].key in index && index[views[(i, kind)].key] == i)
  }

  ghost predicate RecordsOk(r: Records) {
    && RowsOk(r.rows, r.failure)
    && ViewsOk(r.rows, r.views)
    && IndexOk(r.views, Accepted, r.accepted)
    && IndexOk(r.views, Consumed, r.responses)
    && IndexOk(r.views, Completed, r.completions)
    && (forall key | key in r.services :: r.services[key].key == key && key.channel == "memory")
    && (forall key | key in r.acceptances :: r.acceptances[key].key == key)
  }
}
